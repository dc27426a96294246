/** The handlers of `Yu::CLI` as the step-by-step code they are. Each one
    issues its commands through `run_command`, one after another; `exit`
    and `exec` end the process, so nothing runs after them. Every handler is
    proved to leave exactly the trace that `Subcommands` specifies. */
module Yu {
  import opened Paths
  import opened Lists
  import opened Discovery
  import opened Commands
  import opened Executor
  import opened Scaffold
  import opened Subcommands

  class Cli {
    /** The toggles set by the global options. */
    const cfg: Config
    /** The working directory. */
    const fs: Listing
    /** The outcomes of the commands this invocation forks. */
    const ok: Outcomes
    /** What the process has issued so far, in order. */
    var steps: seq<Step>
    var status: Status

    constructor (cfg: Config, fs: Listing, ok: Outcomes)
      ensures this.cfg == cfg && this.fs == fs && this.ok == ok
      ensures steps == [] && status == Running
    {
      this.cfg := cfg;
      this.fs := fs;
      this.ok := ok;
      steps := [];
      status := Running;
    }

    function Current(): Trace
      reads this
    {
      Trace(steps, status)
    }

    /** The process is running and every command it issued succeeded. */
    predicate Undisturbed()
      reads this
    {
      status == Running && Perform(steps, 0, ok).status == Running
    }

    /** `run_command`: the command, silenced unless output is shown or
        verbose mode is on, is forked and waited for. A failure goes to the
        caller's block if there is one, otherwise ends the process with
        status 1 when `exit_on_failure` is set, and is returned when not. */
    method RunCommand(command: string, showingOutput: bool, exitOnFailure: bool, hasBlock: bool)
      returns (d: Decision)
      requires status == Running
      modifies this
      ensures steps == old(steps) + [Run(Executed(cfg, command, showingOutput))]
      ensures d == Decide(ok(|old(steps)|), hasBlock, exitOnFailure)
      ensures status == if d == ExitOne then Exited(1) else Running
    {
      var executed := command;
      if !(showingOutput || cfg.VerboseMode()) {
        executed := command + " &>/dev/null";
      }
      var success := ok(|steps|);
      steps := steps + [Run(executed)];
      if success {
        d := ReturnStatus(true);
      } else if hasBlock {
        d := YieldToBlock;
      } else if exitOnFailure {
        status := Exited(1);
        d := ExitOne;
      } else {
        d := ReturnStatus(false);
      }
    }

    /** `run_command(command)` with its defaults: shown, exit on failure. */
    method RunCommandOrExit(command: string)
      requires Undisturbed()
      modifies this
      ensures Current() == Perform(old(steps) + [Run(command)], 0, ok)
    {
      PerformSnoc(steps, Run(command), 0, ok);
      var _ := RunCommand(command, true, true, false);
    }

    /** `execute_command`: `exec` hands the process over to the command. */
    method ExecuteCommand(command: string)
      requires status == Running
      modifies this
      ensures steps == old(steps) && status == Replaced(command)
    {
      status := Replaced(command);
    }

    method Exit(code: int)
      modifies this
      ensures steps == old(steps) && status == Exited(code)
    {
      status := Exited(code);
    }

    /** `File.write`. */
    method WriteFile(path: string, content: string)
      requires Undisturbed()
      modifies this
      ensures Current() == Perform(old(steps) + [Write(path, content)], 0, ok)
    {
      PerformSnoc(steps, Write(path, content), 0, ok);
      steps := steps + [Write(path, content)];
    }

    /** `package_gems_for_service`. */
    method PackageGemsForService(service: string)
      requires Undisturbed()
      modifies this
      ensures Current() == Perform(old(steps) + [Run(PackageCommand(service))], 0, ok)
    {
      RunCommandOrExit(PackageCommand(service));
    }

    /** `run_seed`. */
    method RunSeed()
      requires Undisturbed()
      modifies this
      ensures Current() == Perform(old(steps) + SeedOps(fs), 0, ok)
    {
      if "seed" in fs {
        RunCommandOrExit(SeedCommand);
      } else {
        assert old(steps) + SeedOps(fs) == steps;
      }
    }

    /** The next `run_command` of a handler, reached only if the steps
        `done` before it left the process running. */
    method ThenRunCommandOrExit(ghost done: seq<Step>, command: string)
      requires Current() == Perform(done, 0, ok)
      modifies this
      ensures Current() == Perform(done + [Run(command)], 0, ok)
    {
      if status == Running {
        RunCommandOrExit(command);
      } else {
        PerformStopped(done, [Run(command)], 0, ok);
      }
    }

    /** The next `run_seed` of a handler, reached only if the steps `done`
        before it left the process running. */
    method ThenRunSeed(ghost done: seq<Step>)
      requires Current() == Perform(done, 0, ok)
      modifies this
      ensures Current() == Perform(done + SeedOps(fs), 0, ok)
    {
      if status == Running {
        RunSeed();
      } else {
        PerformStopped(done, SeedOps(fs), 0, ok);
      }
    }

    /** `test`. */
    method Test(args: seq<string>)
      requires steps == [] && status == Running
      modifies this
      ensures Current() == TestTrace(cfg, fs, args, ok)
    {
      var targets := TestTargets(fs, args);
      var results := RunTests(targets);
      assert AllSucceed(|targets|, ok) == forall j | 0 <= j < |results| :: results[j] by {
        AllSucceedIff(|targets|, ok);
      }
      if !(forall j | 0 <= j < |results| :: results[j]) {
        Exit(1);
      }
    }

    /** The `map` of `test`: every target's tests run with
        `exit_on_failure: false`, and whether each succeeded is kept. */
    method RunTests(targets: seq<string>) returns (results: seq<bool>)
      requires steps == [] && status == Running
      modifies this
      ensures steps == TestOps(cfg, targets) && status == Running
      ensures |results| == |targets| && forall j | 0 <= j < |targets| :: results[j] == ok(j)
    {
      ghost var ops := TestOps(cfg, targets);
      results := [];
      for i := 0 to |targets|
        invariant steps == ops[..i] && status == Running
        invariant |results| == i && forall j | 0 <= j < i :: results[j] == ok(j)
      {
        var d := RunCommand(TestCommand(cfg, targets[i]), true, false, false);
        results := results + [d == ReturnStatus(true)];
        assert steps == ops[..i] + [ops[i]] == ops[..i + 1];
      }
      assert ops[..|targets|] == ops;
    }

    /** `target_services.each(&method(:package_gems_for_service))`. */
    method PackageGemsForServices(services: seq<string>)
      requires Undisturbed()
      modifies this
      ensures Current() == Perform(old(steps) + PackageOps(services), 0, ok)
    {
      ghost var start := steps;
      ghost var ops := start + PackageOps(services);
      assert ops[..|start|] == start;
      var i := 0;
      while i < |services| && status == Running
        invariant 0 <= i <= |services|
        invariant Current() == Perform(ops[..|start| + i], 0, ok)
      {
        assert ops[..|start| + i + 1] == ops[..|start| + i] + [Run(PackageCommand(services[i]))];
        PackageGemsForService(services[i]);
        i := i + 1;
      }
      if i < |services| {
        PerformStoppedWithin(ops, |start| + i, 0, ok);
      } else {
        assert ops[..|start| + i] == ops;
      }
    }

    /** `build`. */
    method Build(args: seq<string>)
      requires steps == [] && status == Running
      modifies this
      ensures Current() == BuildTrace(fs, args, ok)
    {
      var targets := Normalise(args);
      var selected := BuildSelection(fs, targets);
      PackageGemsForServices(selected);
      assert [] + PackageOps(selected) == PackageOps(selected);
      if status == Running {
        ExecuteCommand(BuildCommand(targets));
      }
    }

    /** `shell`. */
    method Shell(test: bool, args: seq<string>)
      requires steps == [] && status == Running
      modifies this
      ensures Current() == ShellTrace(cfg, test, args)
    {
      if |args| == 0 {
        Exit(1);
      } else if |args| == 1 {
        var target := Basename(args[0]);
        ExecuteCommand(ShellCommand(cfg, test, target));
      } else {
        Exit(1);
      }
    }

    /** `run`: the arguments, joined, run in a new container. */
    method RunAdHoc(test: bool, args: seq<string>)
      requires steps == [] && status == Running
      modifies this
      ensures steps == [] && status == Replaced(RunLine(cfg, test, args))
    {
      ExecuteCommand(RunLine(cfg, test, args));
    }

    /** `reset`. */
    method Reset(withoutCache: bool)
      requires steps == [] && status == Running
      modifies this
      ensures Current() == ResetTrace(fs, withoutCache, ok)
    {
      var gemfiled := GemfiledServices(fs);
      ghost var packaged := PackageOps(gemfiled);
      ghost var killed := packaged + [Run(KillAll)];
      ghost var removed := killed + [Run(RemoveAll)];
      ghost var rebuilt := removed + [Run(RebuildCommand(withoutCache))];
      ghost var seeded := rebuilt + SeedOps(fs);
      PackageGemsForServices(gemfiled);
      assert [] + packaged == packaged;
      ThenRunCommandOrExit(packaged, KillAll);
      ThenRunCommandOrExit(killed, RemoveAll);
      ThenRunCommandOrExit(removed, RebuildCommand(withoutCache));
      ThenRunSeed(rebuilt);
      ThenRunCommandOrExit(seeded, UpAll);
    }

    /** `doctor`: each check runs silenced; the block of a failing check
        exits 1. */
    method Doctor()
      requires steps == [] && status == Running
      modifies this
      ensures Current() == DoctorTrace(cfg, ok)
    {
      ghost var ops := DoctorOps(cfg);
      var d := RunCommand("docker", false, true, true);
      assert steps == ops[..1];
      if d == YieldToBlock {
        Exit(1);
        PerformStoppedWithin(ops, 1, 0, ok);
        return;
      }
      assert Current() == Perform(ops[..1], 0, ok) by {
        PerformSnoc([], ops[0], 0, ok);
      }
      d := RunCommand("docker-compose --version", false, true, true);
      assert ops[..2] == ops[..1] + [ops[1]];
      PerformSnoc(ops[..1], ops[1], 0, ok);
      if d == YieldToBlock {
        Exit(1);
        PerformStoppedWithin(ops, 2, 0, ok);
        return;
      }
      d := RunCommand("docker-compose ps", false, true, true);
      assert ops == ops[..2] + [ops[2]];
      PerformSnoc(ops[..2], ops[2], 0, ok);
      if d == YieldToBlock {
        Exit(1);
      }
    }

    /** `start`. */
    method Start(args: seq<string>)
      requires steps == [] && status == Running
      modifies this
      ensures Current() == StartTrace(args, ok)
    {
      var serviceList := ServiceList(args);
      RunCommandOrExit(UpCommand(serviceList));
    }

    /** `restart`. */
    method Restart(args: seq<string>)
      requires steps == [] && status == Running
      modifies this
      ensures Current() == RestartTrace(args, ok)
    {
      var serviceList := ServiceList(args);
      ghost var killed := [Run(KillCommand(serviceList))];
      ThenRunCommandOrExit([], KillCommand(serviceList));
      assert [] + killed == killed;
      ThenRunCommandOrExit(killed, UpCommand(serviceList));
    }

    /** `recreate`. */
    method Recreate(args: seq<string>)
      requires steps == [] && status == Running
      modifies this
      ensures Current() == RecreateTrace(fs, args, ok)
    {
      var serviceList := ServiceList(args);
      ghost var killed := [Run(KillCommand(serviceList))];
      ghost var removed := killed + [Run(RemoveCommand(serviceList))];
      ghost var seeded := removed + SeedOps(fs);
      ThenRunCommandOrExit([], KillCommand(serviceList));
      assert [] + killed == killed;
      ThenRunCommandOrExit(killed, RemoveCommand(serviceList));
      ThenRunSeed(removed);
      ThenRunCommandOrExit(seeded, UpCommand(serviceList));
    }

    /** `copy_template_into_dir`, called with the options hash it expects. */
    method CopyTemplateIntoDir(templateDir: string, serviceName: string)
      requires Undisturbed()
      modifies this
      ensures Current() == Perform(old(steps) + [Run(CopyCommand(templateDir, serviceName))], 0, ok)
    {
      RunCommandOrExit(CopyCommand(templateDir, serviceName));
    }

    /** `render_and_remove_erb_files`: each template file found, in the
        glob's order, is rendered into its target and then removed. */
    method RenderAndRemoveErbFiles(serviceName: string, files: seq<ErbFile>, render: Renderer)
      requires Undisturbed()
      modifies this
      ensures Current() == Perform(old(steps) + RenderOps(serviceName, files, render), 0, ok)
    {
      ghost var start := steps;
      assert start + RenderOps(serviceName, files[..0], render) == start;
      var j := 0;
      while j < |files| && status == Running
        invariant 0 <= j <= |files|
        invariant Current() == Perform(start + RenderOps(serviceName, files[..j], render), 0, ok)
      {
        RenderOpsSnoc(start, serviceName, files, j, render);
        RenderAndRemoveErbFile(serviceName, files[j], render);
        j := j + 1;
      }
      if j < |files| {
        RenderStoppedWithin(start, serviceName, files, j, render, ok);
      } else {
        assert files[..j] == files;
      }
    }

    /** The block of `render_and_remove_erb_files` for one file: the
        template is rendered into the file it names, then removed. */
    method RenderAndRemoveErbFile(serviceName: string, file: ErbFile, render: Renderer)
      requires Undisturbed()
      modifies this
      ensures Current() == Perform(old(steps) + [Write(StripErb(file.path), render(file.text, serviceName))]
                                   + [Run(RemoveFileCommand(file.path))], 0, ok)
    {
      var target := StripErb(file.path);
      var rendered := render(file.text, serviceName);
      WriteFile(target, rendered);
      RunCommandOrExit(RemoveFileCommand(file.path));
    }

    /** `append_partial_to_docker_compose_yml`. */
    method AppendPartialToDockerComposeYml(serviceName: string)
      requires Undisturbed()
      modifies this
      ensures Current() == Perform(old(steps) + AppendOps(serviceName), 0, ok)
    {
      ghost var start := steps;
      RunCommandOrExit(AppendCommand(serviceName));
      ghost var all := start + AppendOps(serviceName);
      assert all[..|start| + 1] == start + [Run(AppendCommand(serviceName))];
      if status != Running {
        PerformStoppedWithin(all, |start| + 1, 0, ok);
        return;
      }
      assert all == all[..|start| + 1] + [Run(RemoveFileCommand(PartialPath(serviceName)))];
      RunCommandOrExit(RemoveFileCommand(PartialPath(serviceName)));
    }

    /** The block `service` runs for each new name: copy the template,
        render it, append its partial. */
    method GenerateScaffold(templateDir: string, serviceName: string, files: seq<ErbFile>, render: Renderer)
      requires Undisturbed()
      modifies this
      ensures Current() == Perform(old(steps) + ScaffoldOps(templateDir, serviceName, files, render), 0, ok)
    {
      ghost var copied := old(steps) + [Run(CopyCommand(templateDir, serviceName))];
      ghost var rendered := copied + RenderOps(serviceName, files, render);
      assert old(steps) + ScaffoldOps(templateDir, serviceName, files, render) == rendered + AppendOps(serviceName);
      CopyTemplateIntoDir(templateDir, serviceName);
      if status == Running {
        RenderAndRemoveErbFiles(serviceName, files, render);
      } else {
        PerformStopped(copied, RenderOps(serviceName, files, render), 0, ok);
      }
      if status == Running {
        AppendPartialToDockerComposeYml(serviceName);
      } else {
        PerformStopped(rendered, AppendOps(serviceName), 0, ok);
      }
    }

    /** `service`, with the copy step called as intended: nothing is
        generated when any named service exists; otherwise every name is
        scaffolded in turn. */
    method Service(templateDir: string, args: seq<string>, listing: nat -> seq<ErbFile>, render: Renderer)
      requires steps == [] && status == Running
      modifies this
      ensures Current() == ServiceTrace(fs, templateDir, args, listing, render, ok)
    {
      var names := Normalise(args);
      var existing := ExistingServices(fs, names);
      if existing != [] {
        return;
      }
      var i := 0;
      while i < |names| && status == Running
        invariant 0 <= i <= |names|
        invariant Current() == Perform(ServiceOps(templateDir, names[..i], listing, render), 0, ok)
      {
        ServiceOpsSnoc(templateDir, names, i, listing, render);
        GenerateScaffold(templateDir, names[i], listing(i), render);
        i := i + 1;
      }
      if i < |names| {
        ServiceStoppedWithin(templateDir, names, i, listing, render, ok);
      } else {
        assert names[..i] == names;
      }
    }
  }
}
