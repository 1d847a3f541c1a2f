# migrate_all, modelled in Dafny

This project models the `migrate_all` console command of the CakePHP plugin
`cakephp-migrate-all`. The command migrates the database of a CakePHP application and then of every loaded
plugin that has migrations. Its logic has three parts, and each one is modelled and proved:

- **Argument filter** (`MigrateArgs.ExtractMigrateArgs`). The command line is stored before it is
  forwarded to `migrations.migrate`. The first `--exclude` token is removed from it. The token after that
  `--exclude` is removed too when it exists and does not start with `-`. Everything else is kept, in order.
- **Discovery** (`MigratePlan.DiscoveredPlugins`). The plugin registry is walked in order. The name of each
  plugin whose `getPath() . 'config/Migrations/' . '*.php'` glob matches at least one file is kept.
- **Sequencer** (`MigrateAll.MigrateAllCommand.Execute`). The migration routine runs once for the
  application, with the stored arguments unchanged. It then runs once per discovered plugin, with
  `--plugin <name>` appended. The first status that is not `CODE_SUCCESS` (0) stops the run and becomes
  its exit code. If every call succeeds, the exit code is `CODE_SUCCESS`.

The collaborators are parameters:
- the plugin registry is a sequence of `LoadedPlugin(name, path)` entries;
- `glob` maps a file pattern to the files that match it;
- `migrate` maps an argument list to the status the migration routine returns.

The class `MigrateAllCommand` keeps the source's fields `argsForMigrate` and `pathFragment`. It also has
two ghost fields:
- `calls` records the argument list of every call of the migration routine;
- `log` records every console message, as a `Message` event.

`Execute` is proved against the specification function `MigrateTargets`. That function gives the calls,
the exit code and the messages of a run over the target list `[App] + plugins`. The lemmas in
`MigratePlan` then characterise the calls, the exit code and the messages of `MigrateTargets`:
- the calls made are a prefix of the plan;
- the run succeeds exactly when every call of the plan succeeds;
- when call `i` is the first to fail, calls `0..i` were made and no others, and call `i`'s status is
  the exit code;
- the messages are a banner and an argument list for each call made, in order, then the success banner
  or the error line of the failing target, and nothing else (`LogFollowsCalls`);
- the last message shown is `All migration finished successfully.` or `<target> migration error!`
  (`LastLinesReportOutcome`).

The code differs from the option's help text in one way. The help text says `--exclude` names *plugins
that are not processed* (src/Command/MigrateAllCommand.php:64-69). The code never reads the option's value
and never skips a plugin. It only strips the option from the arguments it forwards. The model follows the
code.

## Model

| member | source | states |
|---|---|---|
| `MigrateArgs.FirstIndex` | src/Command/MigrateAllCommand.php:105 | strict `array_search`: None exactly when the token is absent; otherwise an index holding the token with no earlier occurrence |
| `MigrateArgs.ExtractMigrateArgs` | src/Command/MigrateAllCommand.php:102-117 | without `--exclude` the arguments come back unchanged; with it, one or two tokens are removed |
| `MigrateArgs.ExtractFirstExclude` | src/Command/MigrateAllCommand.php:104-116 | for every command line `pre + ["--exclude"] + post` with no `--exclude` in `pre`, the result is `pre` followed by `post` minus its first token, and that token is removed exactly when it exists and does not start with `-` |
| `MigrateArgs.ExtractRemovesOneExclude` | src/Command/MigrateAllCommand.php:105-113 | exactly one `--exclude` is removed when any is present, so later occurrences are forwarded |
| `MigrateArgs.ExtractKeepsOrder` | src/Command/MigrateAllCommand.php:102-117 | the forwarded arguments are a subsequence of the command line, so the remaining tokens keep their relative order |
| `MigrateArgs.ExtractDropsValue` | src/Command/MigrateAllCommand.php:109-113 | `--exclude foo --verbose` forwards `--verbose` |
| `MigrateArgs.ExtractKeepsOptionAfterExclude` | src/Command/MigrateAllCommand.php:109-113 | `--exclude --verbose` forwards `--verbose` |
| `MigrateArgs.ExtractExcludeLast` | src/Command/MigrateAllCommand.php:109 | a trailing `--exclude` is removed alone |
| `MigrateArgs.ExtractSecondExcludeSurvives` | src/Command/MigrateAllCommand.php:105-107 | `--exclude a --exclude b` forwards `--exclude b` |
| `MigratePlan.DiscoveredPlugins` | src/Command/MigrateAllCommand.php:131-139 | the list of plugins with migrations is no longer than the registry |
| `MigratePlan.DiscoveredPrefix` | src/Command/MigrateAllCommand.php:131-139 | discovery over a prefix of the registry gives a prefix of the list |
| `MigratePlan.DiscoveredPosition` | src/Command/MigrateAllCommand.php:132-136 | every plugin whose glob matches is in the list, at the position given by the number of matching plugins before it |
| `MigratePlan.DiscoveredSound` | src/Command/MigrateAllCommand.php:132-136 | every list entry is the name of a matching plugin with exactly that many matching plugins before it, so there are no extra entries |
| `MigratePlan.DiscoveredKeepsRegistryOrder` | src/Command/MigrateAllCommand.php:132-136 | of two matching plugins, the one earlier in the registry is earlier in the list |
| `MigratePlan.DiscoveredDistinct` | src/Command/MigrateAllCommand.php:132-135 | registry names are keys, so the list has no duplicates |
| `MigratePlan.ResumeAppends` | src/Command/MigrateAllCommand.php:141-162 | continuing a run after some calls and messages appends the run's calls and messages to them |
| `MigratePlan.InvokedIsPlanPrefix` | src/Command/MigrateAllCommand.php:141-157 | the calls made are a prefix of the plan's argument lists, and the first target always runs |
| `MigratePlan.SucceedsIffAllSucceed` | src/Command/MigrateAllCommand.php:143-162 | the exit code is `CODE_SUCCESS` exactly when every call of the plan returns it, and then every call was made |
| `MigratePlan.StopsAtFirstFailure` | src/Command/MigrateAllCommand.php:143-157 | when call `i` is the first failure, exactly calls `0..i` were made and the exit code is call `i`'s status |
| `MigratePlan.LogReportsOutcome` | src/Command/MigrateAllCommand.php:142-160 | the success banner is written exactly when the run succeeds; a failed run ends with the error message naming the failing target |
| `MigratePlan.LogFollowsCalls` | src/Command/MigrateAllCommand.php:142-160 | the messages are, for each call made and in order, the target's banner and its argument list; then the success banner if the run succeeded, or else the error line of the last target run; nothing else is written |
| `MigratePlan.LastLinesReportOutcome` | src/Command/MigrateAllCommand.php:145-160 | a successful run ends with the lines `----------------------------` and `All migration finished successfully.` at success level; a failed one ends with `<target> migration error!` at error level, `App migration error!` for the application |
| `MigratePlan.PlanShape` | src/Command/MigrateAllCommand.php:176-179 | the application call receives the stored arguments as they are; plugin `i` receives them followed by `--plugin`, `name` |
| `MigratePlan.PluginArgvsDiffer` | src/Command/MigrateAllCommand.php:177-179 | a plugin with a truthy name never receives the application's arguments, and two such plugins with different names receive different arguments |
| `MigratePlan.PlanDistinct` | src/Command/MigrateAllCommand.php:149-179 | with distinct truthy plugin names the plan has no repeated argument list, so each target made at most one call |
| `MigratePlan.AppFailureSkipsPlugins` | src/Command/MigrateAllCommand.php:143-148 | a failing application call is the only call, and its status is the exit code |
| `MigratePlan.PluginFailureSkipsRest` | src/Command/MigrateAllCommand.php:149-157 | when plugin `i` is the first failure, the application and plugins `0..i` ran (`i + 2` calls) and plugin `i`'s status is the exit code |
| `MigratePlan.AllSucceedRunsWholePlan` | src/Command/MigrateAllCommand.php:149-162 | when every call succeeds, one call per plugin plus the application call were made, in plan order, and the exit code is `CODE_SUCCESS` |
| `MigratePlan.NoPluginsSucceeds` | tests/TestCase/Command/MigrateAllCommandTest.php:46-50 | with no plugin to migrate and a successful application call, one call is made, the exit code is `CODE_SUCCESS` and the success banner is written |
| `MigrateAll.MigrateAllCommand.constructor` | src/Command/MigrateAllCommand.php:23-35 | the stored arguments start empty, and the migration directory is `config/Migrations/` |
| `MigrateAll.MigrateAllCommand.Run` | src/Command/MigrateAllCommand.php:88-94 | stores the filtered command line in `argsForMigrate`, then has the effect of `Execute` with it |
| `MigrateAll.MigrateAllCommand.ExecMigrate` | src/Command/MigrateAllCommand.php:173-186 | makes one call of the routine with the stored arguments, plus `--plugin <name>` for a truthy plugin name; logs the argument list; returns the routine's status |
| `MigrateAll.MigrateAllCommand.Execute` | src/Command/MigrateAllCommand.php:126-163 | the calls, messages and exit code are those of `MigrateTargets` over the application followed by the discovered plugins |

## Left out

- `initialize` and `buildOptionParser` (src/Command/MigrateAllCommand.php:46-83) only build and merge
  CakePHP option-parser structures, and that library is not part of this model.
- `Run` does not model `parent::run`'s option parsing. That includes `--help` and parse errors, which
  end the command before `execute`. The model always goes on to `Execute`.
- The migration routine is the parameter `migrate`. Its status depends only on the argument list it
  receives. Database effects and any dependence on earlier calls belong to that routine. A `null` status
  (`executeCommand` returns `?int`) is not modelled: the status is an `int`.
- `Plugin::getCollection()` and `glob` are parameters. A failing glob (PHP's `false`) is the empty list,
  so that plugin counts as having no migrations.
- Console output is recorded as `Message` events. `Lines` and `LevelOf` give each event's text and
  `ConsoleIo` method, and `LastLinesReportOutcome` states them for the closing lines. Verbosity filtering,
  the newline count passed to `info`, and translation by `__()` are not modelled.
- `unset` leaves gaps in the keys of the PHP array. The model keeps only the remaining values, in order.
- The unused field `excludePluginName` and the `_migrate` command object are not modelled. `Execute`
  never consults the `exclude` option, so no plugin is ever skipped by name.
- PHP truthiness is modelled as the source has it. A plugin named `""` or `"0"` gets the application's
  arguments (`Truthy`). `PlanShape`, `PluginArgvsDiffer` and `PlanDistinct` speak only of truthy names.
