# yu: the decision layer of `Yu::CLI`, modelled in Dafny

`yu` is a command-line front end to docker-compose. Each subcommand (`test`,
`build`, `shell`, `reset`, `doctor`, `start`, `restart`, `recreate`, `run`,
`service`) normalises the service names it is given, finds services by the
marker files they hold, builds docker-compose command lines and hands them to
the shell through `run_command`, which decides what a failure means. This
project models that layer of `lib/yu.rb` and proves what each subcommand
issues and how it ends.

The model has two layers:

- The **specification** is pure functions. Every subcommand is a trace: the
  steps it requests (commands forked, files written) and the state the
  process is left in (still running, exited with a code, or replaced by an
  `exec`). A command's outcome is an input, `ok(n)`, for the command issued
  as step `n`. The working directory is a listing of relative paths in glob
  order. The `-V` and `--no-rm` toggles are an explicit `Config`.
- The **handlers** are the class `Yu.Cli`. They are written step by step as
  in the source: they reassign the class's `steps` and `status` fields, the
  loops carry their invariants, and an `exit` or `exec` stops the process.
  Each handler is proved to leave exactly the trace its specification
  function gives.

Modules, in dependency order:

- `Paths`: `File.basename`, `split("/").first`, and the `.erb` target rule.
- `Lists`: Ruby's `select` and `Array#&`.
- `Text`: `join(" ")` and splitting into blank-separated words, which states what each
  command line means.
- `Discovery`: `services_with_file`, `gemfiled_services`, `testable_services`
  and `get_existing_services`.
- `Commands`: every command line and the toggles.
- `Executor`: the `run_command` policy, and `Perform`, which issues steps up
  to the first failing command.
- `Scaffold`: the steps of `service` for one name and for a list of names.
- `Subcommands`: one trace function per subcommand, with its properties.
- `Yu`: the class `Cli`.

Where the code and its documentation disagree, the model follows the code:

- `service` with a name that already exists prints a message and returns,
  so the process ends normally (status 0).
- The `cat` of the docker-compose partial runs whether or not the template
  had one, so a missing partial fails the command and exits 1.
- `build` always execs `docker-compose build` with the normalised arguments,
  not with the packaged selection. With no arguments it builds every service.

## Model

| member | source | states |
|---|---|---|
| Paths.Basename | lib/yu.rb:291-293 | the name is empty exactly when the argument is; it is "/" exactly when the argument is made only of slashes; otherwise it holds no '/' |
| Paths.BasenameOfJoin | lib/yu.rb:291-293 | a directory prefix is dropped: `dir/name` normalises to `name` |
| Paths.BasenameOfBareName | lib/yu.rb:291-293 | a name without '/' is returned unchanged |
| Paths.BasenameIdempotent | lib/yu.rb:291-293 | normalising twice is normalising once |
| Paths.BasenameKeepsCharacters | lib/yu.rb:291-293 | the name holds no character other than '/' that the argument lacks, so a blank-free argument gives a blank-free name |
| Text.UpTo | lib/yu.rb:296 | `split("/").first` (and the leading blank-separated word): a prefix of the string without the separator, ending at the first separator or at the end |
| Paths.FirstComponentOfJoin | lib/yu.rb:296 | `d/rest` splits to `d` for a `d` without '/' |
| Paths.StripErb | lib/yu.rb:237 | the target with ".erb" appended is the template path; exactly four characters shorter |
| Paths.StripErbIsInverse | lib/yu.rb:237 | appending ".erb" and stripping gives the target back, so only the final suffix is removed |
| Lists.Filter | lib/yu.rb:220 | `select` keeps exactly the elements that pass, in order, and keeps a list duplicate-free |
| Lists.FilterAppend | lib/yu.rb:220 | selecting from a concatenation selects from each part |
| Lists.Intersect | lib/yu.rb:117 | `a & b` holds exactly the elements in both |
| Lists.IntersectKeepsOrder | lib/yu.rb:117 | `a & b` holds no element twice and keeps the order of `a` |
| Text.WordsOfJoin | lib/yu.rb:172 | splitting a `join(" ")` gives the words of every element, in order |
| Text.AllWordsOfWords | lib/yu.rb:172 | single-word elements come back unchanged from join-then-split |
| Discovery.ServiceOf | lib/yu.rb:296 | a matched `d/marker` yields the top-level, non-hidden name `d` |
| Discovery.ServicesWithFile | lib/yu.rb:295-297 | one entry per glob match, in glob order; each entry is a top-level directory name, and the entry followed by "/" and the marker is the match |
| Discovery.ServicesWithFileExactly | lib/yu.rb:283-297 | a name is discovered exactly when it is a top-level name whose `name/marker` is in the directory |
| Discovery.ServicesWithFileDistinct | lib/yu.rb:295-297 | no service is discovered twice |
| Discovery.ExistingServices | lib/yu.rb:219-221 | a name is reported exactly when it was given and exists; the report is empty exactly when none exists |
| Commands.Executed | lib/yu.rb:256-258 | the executed line starts with the command |
| Commands.ExecutedWords | lib/yu.rb:255-258 | the redirection adds exactly the word `&>/dev/null`, and only when output is hidden and verbose mode is off |
| Commands.RmFlagWords | lib/yu.rb:312-314 | `--rm` appears exactly when containers are removed |
| Commands.EnvOptionWords | lib/yu.rb:132 | `-e APP_ENV=test` appears exactly with `--test` |
| Commands.TestCommandWords | lib/yu.rb:104 | the test run is `docker-compose run`, `--rm` if removal is on, the service, `bin/test` |
| Commands.ShellCommandWords | lib/yu.rb:132-134 | the shell is `docker-compose run`, the optional `--rm` and test environment, the service, `bash` |
| Commands.ShellCommandFlags | lib/yu.rb:132-134 | the shell line carries `--rm` iff removal is on and `APP_ENV=test` iff `--test` |
| Commands.RunLineWords | lib/yu.rb:191-195 | an ad-hoc run is `docker-compose run`, the optional flags, then the user's words unchanged |
| Commands.BuildCommandWords | lib/yu.rb:122 | the image build names exactly the given services, and all of them when none is given |
| Commands.RebuildCommandWords | lib/yu.rb:149 | the rebuild of `reset` is `docker-compose build`, plus `--no-cache` exactly with `--without-cache` |
| Commands.KillAllWords | lib/yu.rb:145 | `reset` kills every container |
| Commands.RemoveAllWords | lib/yu.rb:147 | `reset` removes every container without asking |
| Commands.UpAllWords | lib/yu.rb:152 | `reset` brings every service up without recreating |
| Commands.UpCommandWords | lib/yu.rb:173 | bringing up addresses exactly the named services |
| Commands.KillCommandWords | lib/yu.rb:178 | killing addresses exactly the named services |
| Commands.RemoveCommandWords | lib/yu.rb:186 | removal addresses exactly the named services |
| Executor.Decide | lib/yu.rb:263-275 | success is returned; a failure yields to the block if given, else exits 1 iff `exit_on_failure`, else is returned |
| Executor.FirstFailure | lib/yu.rb:263-272 | the position of the first failing command: all before it succeed |
| Executor.Perform | lib/yu.rb:263-272 | steps issued with exit-on-failure: a prefix of the plan; still running exactly when the whole plan was issued and nothing failed, else exited 1 |
| Executor.PerformStopsAtFirstFailure | lib/yu.rb:263-272 | the process exits exactly when some command fails; the last step issued is the first failing command |
| Executor.PerformAppend | lib/yu.rb:263-272 | issuing `a` then `b` is issuing `a + b`; `b` starts only if `a` left the process running |
| Executor.PerformCommands | lib/yu.rb:263-272 | commands from the start of an invocation: running iff all succeed; otherwise it stops right after the first failing one |
| Scaffold.CopyTemplateIntoDir | lib/yu.rb:223-227 | a copy is issued exactly for an options hash, and it copies the template to the named service |
| Scaffold.RenderOps | lib/yu.rb:233-241 | for each template file, in glob order, a write of the rendered text to the path without ".erb", then `rm` of the template |
| Scaffold.RenderOpsHaveNoCopyOrAppend | lib/yu.rb:233-241 | rendering never copies a template or appends a partial |
| Scaffold.ScaffoldCopiesOnce | lib/yu.rb:203-208 | one scaffold copies the template exactly once |
| Scaffold.ScaffoldAppendsOnce | lib/yu.rb:203-208 | one scaffold appends its partial exactly once |
| Scaffold.ServiceOpsCopyInArgumentOrder | lib/yu.rb:203-208 | scaffolding a list copies one template per name, in argument order |
| Scaffold.ServiceOpsAppendInArgumentOrder | lib/yu.rb:203-208 | scaffolding a list appends one partial per name, in argument order |
| Subcommands.Normalise | lib/yu.rb:98 | one normalised name per argument, in order |
| Subcommands.AllSucceedIff | lib/yu.rb:109 | `results.all?(&:success?)` holds iff every run succeeded |
| Subcommands.TestRunsEveryTarget | lib/yu.rb:94-110 | one run per target, in order; exit 1 iff some run failed, still running iff all succeeded |
| Subcommands.TestAgreesWithStoppingEarly | lib/yu.rb:101-109 | stopping at the first failure would end in the same status after a prefix of the same runs |
| Subcommands.BuildSelectionMembers | lib/yu.rb:113-118 | a service is packaged iff it holds a Gemfile and, when names are given, is named |
| Subcommands.BuildSelectionOrder | lib/yu.rb:113-118 | the selection holds no service twice and keeps discovery order |
| Subcommands.BuildPackagesBeforeBuilding | lib/yu.rb:112-123 | the image build is exec'ed iff every selected packaging succeeded, and only after all of them |
| Subcommands.PackagingStops | lib/yu.rb:278-281 | packaging stops at the first service whose packaging fails, exiting 1 |
| Subcommands.BuildStopsAtFailedPackaging | lib/yu.rb:120 | a failed packaging ends `build`: it is the last step, the earlier ones succeeded, no image is built |
| Subcommands.BuildBuildsNamedServices | lib/yu.rb:122 | the exec'ed build names exactly the normalised arguments |
| Subcommands.ShellArity | lib/yu.rb:125-139 | for any arguments nothing is issued; the shell is exec'ed iff there is exactly one argument, otherwise exit 1 |
| Subcommands.ShellNeedsExactlyOne | lib/yu.rb:125-139 | nothing is issued; the shell is exec'ed iff there is exactly one argument, with the normalised name and the configured flags; otherwise exit 1 |
| Subcommands.ResetBringsUpLast | lib/yu.rb:141-153 | a completed reset packages every Gemfile service, then kills, removes, rebuilds, seeds iff `seed` exists, and brings everything up last |
| Subcommands.DoctorStopsAtFirstFailingCheck | lib/yu.rb:155-169 | doctor passes iff all three checks pass; otherwise the first failing check is the last step and the process exits 1 |
| Subcommands.DoctorHidesOutput | lib/yu.rb:155-167 | each check's output is discarded unless verbose mode is on |
| Subcommands.LifecycleAddressesNamedServices | lib/yu.rb:171-189 | start, restart and recreate address exactly the named services; restart brings them up only after the kill succeeded |
| Subcommands.RecreateBringsUpLast | lib/yu.rb:182-189 | a completed recreate kills, removes, seeds iff `seed` exists, and brings the services up last |
| Subcommands.ServiceAllOrNothing | lib/yu.rb:197-210 | one existing name blocks every scaffold and the command ends normally; otherwise a completed run copies and appends for every name exactly once, in argument order |
| Subcommands.ScaffoldEachWithOptions | lib/yu.rb:203-208 | the loop with the name passed as an options hash issues every scaffold in turn, stopping at the first failure |
| Subcommands.ScaffoldEachWithBareName | lib/yu.rb:205 | the loop as written issues nothing and exits 1 |
| Subcommands.ServiceAsWrittenNeverScaffolds | lib/yu.rb:197-210 | with every command succeeding and no name existing, the code as written exits 1 without a copy, where the intended loop copies once per name |
| Yu.Cli.RunCommand | lib/yu.rb:255-276 | forks the possibly silenced command as the next step; the decision follows `Decide`; the process exits 1 exactly on `ExitOne` |
| Yu.Cli.RunCommandOrExit | lib/yu.rb:255-276 | with the defaults, the new state is the old plan plus the command, performed with exit-on-failure |
| Yu.Cli.ExecuteCommand | lib/yu.rb:299-302 | the process is replaced by the command and nothing more is issued |
| Yu.Cli.WriteFile | lib/yu.rb:239 | the write is added as the next step |
| Yu.Cli.PackageGemsForService | lib/yu.rb:278-281 | issues the packaging command of the service |
| Yu.Cli.PackageGemsForServices | lib/yu.rb:120 | packages the services in order, stopping at the first failure |
| Yu.Cli.RunSeed | lib/yu.rb:212-217 | runs `./seed` exactly when `seed` exists |
| Yu.Cli.RunTests | lib/yu.rb:101-107 | issues every target's test run, never stopping, and records each outcome |
| Yu.Cli.Test | lib/yu.rb:94-110 | leaves exactly the trace of `TestTrace` |
| Yu.Cli.Build | lib/yu.rb:112-123 | leaves exactly the trace of `BuildTrace` |
| Yu.Cli.Shell | lib/yu.rb:125-139 | leaves exactly the trace of `ShellTrace` |
| Yu.Cli.RunAdHoc | lib/yu.rb:191-195 | issues nothing and execs the `run` line |
| Yu.Cli.Reset | lib/yu.rb:141-153 | leaves exactly the trace of `ResetTrace` |
| Yu.Cli.Doctor | lib/yu.rb:155-169 | leaves exactly the trace of `DoctorTrace` |
| Yu.Cli.Start | lib/yu.rb:171-174 | leaves exactly the trace of `StartTrace` |
| Yu.Cli.Restart | lib/yu.rb:176-180 | leaves exactly the trace of `RestartTrace` |
| Yu.Cli.Recreate | lib/yu.rb:182-189 | leaves exactly the trace of `RecreateTrace` |
| Yu.Cli.CopyTemplateIntoDir | lib/yu.rb:223-227 | issues the copy of the template into the service directory |
| Yu.Cli.RenderAndRemoveErbFiles | lib/yu.rb:229-242 | issues `RenderOps` for the listed files, stopping at the first failure |
| Yu.Cli.RenderAndRemoveErbFile | lib/yu.rb:234-240 | writes one rendered template to its target, then removes the template |
| Yu.Cli.AppendPartialToDockerComposeYml | lib/yu.rb:244-248 | appends the partial to `docker-compose.yml`, then removes it |
| Yu.Cli.GenerateScaffold | lib/yu.rb:204-207 | copy, render and append for one name, stopping at the first failure |
| Yu.Cli.Service | lib/yu.rb:197-210 | leaves exactly the trace of `ServiceTrace`, the intended `service` |

## Left out

- Yu.Cli.Service: models the loop with `copy_template_into_dir(service_name: name)`. The call as written at lib/yu.rb:205 is `Subcommands.ServiceAsWritten`; see Findings.
- Writes, rendering and `exec` are assumed to succeed. In Ruby, `File.read`, `ERB#result` and `File.write` (lib/yu.rb:234-239), `exec` of a missing program (lib/yu.rb:301) and `Pathname#realpath` (lib/yu.rb:252) fail by raising, which ends the process with status 1. In the model a `Write` step never fails, the `Renderer` is total and `ExecuteCommand` always ends in `Replaced`. So a raising `File.write` that would stop `service` before its `rm` is not captured; only forked commands can fail.
- Yu.Cli.RunCommand: the fork, `exec` and `Process.waitpid2` are not modelled. The command's exit status is the input `ok(n)`.
- Yu.Cli.ExecuteCommand: `exec` is modelled as the end of the handler's trace. The replacing process is not modelled.
- Under a POSIX `sh` such as dash, `&>/dev/null` backgrounds the command instead of silencing it. The model treats the redirection as text.
- `File.exists?` in `run_seed` was removed in Ruby 3.2. The model reads it as "the path exists".
- `Dir.glob` matching is reduced to what the CLI relies on. `*/marker` matches top-level, non-hidden directories. The `.erb` glob of a scaffold is an input list, given per name in glob order. Hidden files and `**` recursion are not modelled.
- The disk effects of `cp -aR`, `cat >>` and `rm` are not modelled, and neither is the content that `File.write` leaves. The model records the requested steps only.
- ERB evaluation and the `OpenStruct` binding are an opaque `Renderer` of the template text and the service name.
- `template_dir` and its `realpath` are the parameter `templateDir`.
- `Pathname#exist?` is membership in the listing, plus ".", ".." and "/", which always exist.
- The listing is not required to list the parent of each listed path, so `Exists(fs, d)` and discovery of `d` through a listed `d/marker` are independent views of the directory. No proved property relies on them agreeing.
- Console output through `info` and `say` is not modelled.
- Commander's command registration, option parsing and `run!` are not modelled. The `-V` and `--no-rm` toggles and the `--test` and `--without-cache` options are parameters.
- Service names are assumed to contain no newline and are not shell-quoted, as in the source. Command lines are compared as text and as blank-separated words only.
- Subcommands.ServiceAllOrNothing: repeated names in one `service` call are scaffolded once per occurrence, as the loop does. What `cp` then does to an existing directory is not modelled.

## Findings

| source | as written | input that shows it | evidently intended | confidence | as-written member | corrected member |
|---|---|---|---|---|---|---|
| lib/yu.rb:205 | `copy_template_into_dir(service_name)` passes the name as a String. Line 224 then calls `options.fetch(:service_name)` on that String, which raises NoMethodError. | `yu service foo` in a directory without `foo`: the process fails before any copy. | pass an options hash, `copy_template_into_dir(service_name: service_name)`, as `render_and_remove_erb_files` is called on the next line | not executed | Subcommands.ServiceAsWrittenNeverScaffolds | Subcommands.ServiceAllOrNothing |
