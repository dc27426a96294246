/** What each subcommand does, as a function of its arguments, options, the
    working directory and the outcomes of the commands it forks: the steps
    it issues and the state it leaves the process in. The handlers of the
    `Cli` class are proved to produce exactly these traces. */
module Subcommands {
  import opened Paths
  import opened Lists
  import opened Text
  import opened Discovery
  import opened Commands
  import opened Executor
  import opened Scaffold

  /** `args.map(&method(:normalise_service_name_from_dir))`. */
  function Normalise(args: seq<string>): (names: seq<string>)
    ensures |names| == |args|
    ensures forall i | 0 <= i < |args| :: names[i] == Basename(args[i])
  {
    seq(|args|, i requires 0 <= i < |args| => Basename(args[i]))
  }

  /** Arguments that are single shell words give names that are single
      shell words too. */
  lemma NormalisedWords(args: seq<string>)
    requires forall i | 0 <= i < |args| :: args[i] != [] && ' ' !in args[i]
    ensures forall i | 0 <= i < |args| :: Normalise(args)[i] != [] && ' ' !in Normalise(args)[i]
  {
    forall i | 0 <= i < |args| ensures ' ' !in Basename(args[i]) {
      BasenameKeepsCharacters(args[i], ' ');
    }
  }

  /** `service_list` of `start`, `restart` and `recreate`. */
  function ServiceList(args: seq<string>): string {
    Join(Normalise(args))
  }

  /** `run_seed`: the seed script runs only when `seed` exists. */
  function SeedOps(fs: Listing): seq<Step> {
    if "seed" in fs then [Run(SeedCommand)] else []
  }

  // ---------------------------------------------------------------- test

  /** The services `test` runs: the testable ones when no argument is given,
      otherwise the named ones. */
  function TestTargets(fs: Listing, args: seq<string>): seq<string> {
    if args == [] then TestableServices(fs) else Normalise(args)
  }

  function TestOps(cfg: Config, targets: seq<string>): (ops: seq<Step>)
    ensures |ops| == |targets|
  {
    seq(|targets|, i requires 0 <= i < |targets| => Run(TestCommand(cfg, targets[i])))
  }

  /** `results.all?(&:success?)` over the first `n` commands issued. */
  predicate AllSucceed(n: nat, ok: Outcomes) {
    n == 0 || (AllSucceed(n - 1, ok) && ok(n - 1))
  }

  lemma {:induction false} AllSucceedIff(n: nat, ok: Outcomes)
    ensures AllSucceed(n, ok) <==> forall i | 0 <= i < n :: ok(i)
  {
    if n > 0 {
      AllSucceedIff(n - 1, ok);
    }
  }

  /** `test` runs every target with `exit_on_failure: false` and exits 1 at
      the end if any run failed. */
  function TestTrace(cfg: Config, fs: Listing, args: seq<string>, ok: Outcomes): Trace {
    var ops := TestOps(cfg, TestTargets(fs, args));
    Trace(ops, if AllSucceed(|ops|, ok) then Running else Exited(1))
  }

  /** No failure cuts the test runs short: one run per target, in order, and
      the exit status is 1 exactly when some run failed. */
  lemma TestRunsEveryTarget(cfg: Config, fs: Listing, args: seq<string>, ok: Outcomes)
    ensures var t, targets := TestTrace(cfg, fs, args, ok), TestTargets(fs, args);
      |t.steps| == |targets| &&
      (forall i | 0 <= i < |targets| :: t.steps[i] == Run(TestCommand(cfg, targets[i]))) &&
      (t.status == Exited(1) <==> exists i | 0 <= i < |targets| :: !ok(i)) &&
      (t.status == Running <==> forall i | 0 <= i < |targets| :: ok(i))
  {
    var targets := TestTargets(fs, args);
    AllSucceedIff(|targets|, ok);
  }

  /** Running the same commands with the default `exit_on_failure: true`
      would end in the same status, but would stop at the first failure:
      `test` differs only in issuing every run. */
  lemma TestAgreesWithStoppingEarly(cfg: Config, fs: Listing, args: seq<string>, ok: Outcomes)
    ensures var t := TestTrace(cfg, fs, args, ok);
      var stopping := Perform(t.steps, 0, ok);
      stopping.status == t.status && stopping.steps <= t.steps
  {
    var ops := TestOps(cfg, TestTargets(fs, args));
    AllSucceedIff(|ops|, ok);
    PerformCommands(ops, ok);
  }

  // ---------------------------------------------------------------- build

  /** The services `build` packages: every Gemfile service with no
      arguments, otherwise `gemfiled_services & names`. */
  function BuildSelection(fs: Listing, names: seq<string>): seq<string> {
    if names == [] then GemfiledServices(fs) else Intersect(GemfiledServices(fs), names)
  }

  /** Exactly the Gemfile services, restricted to the named ones when names
      are given. */
  lemma BuildSelectionMembers(fs: Listing, names: seq<string>, s: string)
    ensures s in BuildSelection(fs, names) <==>
      IsTopLevelName(s) && s + "/Gemfile" in fs && (names == [] || s in names)
  {
    ServicesWithFileExactly(fs, "Gemfile", s);
    assert s + "/" + "Gemfile" == s + "/Gemfile";
  }

  lemma IndexOfDistinct<T>(s: seq<T>, i: nat)
    requires Distinct(s) && i < |s|
    ensures IndexOf(s, s[i]) == i
  {
  }

  /** The selection holds no service twice and keeps discovery order, also
      when the names are repeated or given in another order. */
  lemma BuildSelectionOrder(fs: Listing, names: seq<string>)
    requires Distinct(fs)
    ensures var sel, found := BuildSelection(fs, names), GemfiledServices(fs);
      Distinct(sel) &&
      forall i, j | 0 <= i < j < |sel| :: sel[i] in found && sel[j] in found &&
        IndexOf(found, sel[i]) < IndexOf(found, sel[j])
  {
    var found := GemfiledServices(fs);
    if names == [] {
      ServicesWithFileDistinct(fs, "Gemfile");
      forall i | 0 <= i < |found| ensures IndexOf(found, found[i]) == i {
        IndexOfDistinct(found, i);
      }
    } else {
      IntersectKeepsOrder(found, names);
    }
  }

  function PackageOps(services: seq<string>): (ops: seq<Step>)
    ensures |ops| == |services|
  {
    seq(|services|, i requires 0 <= i < |services| => Run(PackageCommand(services[i])))
  }

  /** `build`: package the selected services one after another, then hand
      the process over to the image build of the named services. */
  function BuildTrace(fs: Listing, args: seq<string>, ok: Outcomes): Trace {
    var names := Normalise(args);
    var t := Perform(PackageOps(BuildSelection(fs, names)), 0, ok);
    if t.status == Running then Trace(t.steps, Replaced(BuildCommand(names))) else t
  }

  /** The image build starts exactly when every selected service has been
      packaged successfully, and only after all of them. */
  lemma BuildPackagesBeforeBuilding(fs: Listing, args: seq<string>, ok: Outcomes)
    ensures var t, sel := BuildTrace(fs, args, ok), BuildSelection(fs, Normalise(args));
      (t.status.Replaced? <==> forall i | 0 <= i < |sel| :: ok(i)) &&
      (t.status.Replaced? ==>
        t.steps == PackageOps(sel) && t.status == Replaced(BuildCommand(Normalise(args))))
  {
    var ops := PackageOps(BuildSelection(fs, Normalise(args)));
    PerformCommands(ops, ok);
  }

  /** Packaging stops at the first service whose packaging fails. */
  lemma PackagingStops(services: seq<string>, ok: Outcomes)
    ensures var t := Perform(PackageOps(services), 0, ok);
      t.status != Running ==>
        t.status == Exited(1) && 0 < |t.steps| <= |services| &&
        t.steps[|t.steps| - 1] == Run(PackageCommand(services[|t.steps| - 1])) &&
        !ok(|t.steps| - 1) && forall i | 0 <= i < |t.steps| - 1 :: ok(i)
  {
    var ops := PackageOps(services);
    PerformCommands(ops, ok);
    var t := Perform(ops, 0, ok);
    if t.status != Running {
      var k := |t.steps| - 1;
      assert t.steps[k] == ops[k];
    }
  }

  /** A failed packaging ends `build`: it is the last step, every packaging
      before it succeeded, and the process exits 1 without building. */
  lemma BuildStopsAtFailedPackaging(fs: Listing, args: seq<string>, ok: Outcomes)
    ensures var t, sel := BuildTrace(fs, args, ok), BuildSelection(fs, Normalise(args));
      !t.status.Replaced? ==>
        t.status == Exited(1) && 0 < |t.steps| <= |sel| &&
        t.steps[|t.steps| - 1] == Run(PackageCommand(sel[|t.steps| - 1])) &&
        !ok(|t.steps| - 1) && forall i | 0 <= i < |t.steps| - 1 :: ok(i)
  {
    PackagingStops(BuildSelection(fs, Normalise(args)), ok);
  }

  /** The build is of exactly the named services, or of all of them when
      none is named. */
  lemma BuildBuildsNamedServices(fs: Listing, args: seq<string>, ok: Outcomes)
    requires forall i | 0 <= i < |args| :: args[i] != [] && ' ' !in args[i]
    ensures var t := BuildTrace(fs, args, ok);
      t.status.Replaced? ==>
        Words(t.status.command) == ["docker-compose", "build"] + Normalise(args)
  {
    NormalisedWords(args);
    BuildCommandWords(Normalise(args));
  }

  // ---------------------------------------------------------------- shell

  /** `shell`: exactly one argument opens a shell in that service; none or
      several exit 1. */
  function ShellTrace(cfg: Config, test: bool, args: seq<string>): Trace {
    if |args| == 1 then Trace([], Replaced(ShellCommand(cfg, test, Basename(args[0]))))
    else Trace([], Exited(1))
  }

  /** Whatever the arguments, nothing runs before `shell` ends: exactly one
      argument hands the process to the shell, none or several exit 1. */
  lemma ShellArity(cfg: Config, test: bool, args: seq<string>)
    ensures var t := ShellTrace(cfg, test, args);
      t.steps == [] &&
      (t.status.Replaced? <==> |args| == 1) &&
      (!t.status.Replaced? ==> t.status == Exited(1))
  {
  }

  /** Nothing runs before the shell takes over, and only with exactly one
      argument; the shell runs in the normalised service, with `--rm` and
      the test environment exactly as configured. */
  lemma ShellNeedsExactlyOne(cfg: Config, test: bool, args: seq<string>)
    requires |args| == 1 ==> args[0] != [] && ' ' !in args[0]
    ensures var t := ShellTrace(cfg, test, args);
      t.steps == [] &&
      (t.status.Replaced? <==> |args| == 1) &&
      (!t.status.Replaced? ==> t.status == Exited(1)) &&
      (t.status.Replaced? ==>
        Words(t.status.command) ==
          ["docker-compose", "run"] + (if cfg.RemoveContainers() then ["--rm"] else [])
          + (if test then ["-e", "APP_ENV=test"] else []) + [Basename(args[0]), "bash"])
  {
    if |args| == 1 {
      BasenameKeepsCharacters(args[0], ' ');
      ShellCommandWords(cfg, test, Basename(args[0]));
    }
  }

  // ---------------------------------------------------------------- reset

  function ResetOps(fs: Listing, withoutCache: bool): seq<Step> {
    PackageOps(GemfiledServices(fs)) + [Run(KillAll)] + [Run(RemoveAll)] + [Run(RebuildCommand(withoutCache))]
    + SeedOps(fs) + [Run(UpAll)]
  }

  /** `reset`: package every Gemfile service, kill and remove all containers,
      rebuild, seed, and bring everything up, stopping at the first failure. */
  function ResetTrace(fs: Listing, withoutCache: bool, ok: Outcomes): Trace {
    Perform(ResetOps(fs, withoutCache), 0, ok)
  }

  /** A reset that completes has packaged every Gemfile service, then
      killed, removed and rebuilt, run the seed script exactly when it
      exists, and brought the containers up as its last step. */
  lemma ResetBringsUpLast(fs: Listing, withoutCache: bool, ok: Outcomes)
    ensures var t, p := ResetTrace(fs, withoutCache, ok), |GemfiledServices(fs)|;
      t.status == Running ==>
        t.steps[..p] == PackageOps(GemfiledServices(fs)) &&
        t.steps[p..p + 3] == [Run(KillAll), Run(RemoveAll), Run(RebuildCommand(withoutCache))] &&
        |t.steps| == p + 4 + (if "seed" in fs then 1 else 0) &&
        (("seed" in fs) <==> t.steps[p + 3] == Run(SeedCommand)) &&
        t.steps[|t.steps| - 1] == Run(UpAll)
  {
    var ops := ResetOps(fs, withoutCache);
    var p := |GemfiledServices(fs)|;
    assert ops[..p] == PackageOps(GemfiledServices(fs));
    assert ops[p..p + 3] == [Run(KillAll), Run(RemoveAll), Run(RebuildCommand(withoutCache))];
    assert SeedCommand != UpAll by { assert SeedCommand[0] != UpAll[0]; }
  }

  // ---------------------------------------------------------------- doctor

  function DoctorOps(cfg: Config): (ops: seq<Step>)
    ensures |ops| == |DoctorChecks|
  {
    seq(|DoctorChecks|, i requires 0 <= i < |DoctorChecks| => Run(Executed(cfg, DoctorChecks[i], false)))
  }

  /** `doctor`: the checks run in order with their output hidden; the block
      of a failing check exits 1, so the first failure ends the run. */
  function DoctorTrace(cfg: Config, ok: Outcomes): Trace {
    Perform(DoctorOps(cfg), 0, ok)
  }

  /** Doctor passes exactly when every check passes; otherwise the last
      check issued is the first one that failed and the process exits 1. */
  lemma DoctorStopsAtFirstFailingCheck(cfg: Config, ok: Outcomes)
    ensures var t := DoctorTrace(cfg, ok);
      (t.status == Running <==> ok(0) && ok(1) && ok(2)) &&
      (t.status != Running ==>
        t.status == Exited(1) && 0 < |t.steps| <= 3 && !ok(|t.steps| - 1) &&
        forall i | 0 <= i < |t.steps| - 1 :: ok(i))
  {
    PerformCommands(DoctorOps(cfg), ok);
  }

  /** The output of each check is discarded unless verbose mode is on. */
  lemma DoctorHidesOutput(cfg: Config, ok: Outcomes)
    ensures var t := DoctorTrace(cfg, ok);
      forall i | 0 <= i < |t.steps| :: t.steps[i].Run? &&
        Words(t.steps[i].command) ==
          Words(DoctorChecks[i]) + (if cfg.VerboseMode() then [] else ["&>/dev/null"])
  {
    var t := DoctorTrace(cfg, ok);
    var ops := DoctorOps(cfg);
    forall i | 0 <= i < |t.steps|
      ensures t.steps[i].Run? && Words(t.steps[i].command) ==
        Words(DoctorChecks[i]) + (if cfg.VerboseMode() then [] else ["&>/dev/null"])
    {
      assert t.steps[i] == ops[i];
      ExecutedWords(cfg, DoctorChecks[i], false);
    }
  }

  // ------------------------------------------------- start, restart, recreate

  /** `start`: bring up the named services (all of them when none is named). */
  function StartTrace(args: seq<string>, ok: Outcomes): Trace {
    Perform([Run(UpCommand(ServiceList(args)))], 0, ok)
  }

  function RestartOps(args: seq<string>): seq<Step> {
    [Run(KillCommand(ServiceList(args)))] + [Run(UpCommand(ServiceList(args)))]
  }

  /** `restart`: kill the named services, then bring them up. */
  function RestartTrace(args: seq<string>, ok: Outcomes): Trace {
    Perform(RestartOps(args), 0, ok)
  }

  function RecreateOps(fs: Listing, args: seq<string>): seq<Step> {
    [Run(KillCommand(ServiceList(args)))] + [Run(RemoveCommand(ServiceList(args)))]
    + SeedOps(fs) + [Run(UpCommand(ServiceList(args)))]
  }

  /** `recreate`: kill and remove the named services, seed, bring them up. */
  function RecreateTrace(fs: Listing, args: seq<string>, ok: Outcomes): Trace {
    Perform(RecreateOps(fs, args), 0, ok)
  }

  /** Every lifecycle command addresses exactly the named services, in
      argument order; with no names, it addresses every service. A
      restart brings the services up only after the kill succeeded. */
  lemma LifecycleAddressesNamedServices(fs: Listing, args: seq<string>, ok: Outcomes)
    requires forall i | 0 <= i < |args| :: args[i] != [] && ' ' !in args[i]
    ensures var names := Normalise(args);
      Words(UpCommand(ServiceList(args))) == ["docker-compose", "up", "-d", "--no-recreate"] + names &&
      Words(KillCommand(ServiceList(args))) == ["docker-compose", "kill"] + names &&
      Words(RemoveCommand(ServiceList(args))) == ["docker-compose", "rm", "--force"] + names
    ensures |RestartTrace(args, ok).steps| == 2 ==> ok(0)
  {
    var names := Normalise(args);
    NormalisedWords(args);
    UpCommandWords(names);
    KillCommandWords(names);
    RemoveCommandWords(names);
    PerformStopsAtFirstFailure(RestartOps(args), 0, ok);
  }

  /** A recreate that completes killed, removed, seeded exactly when the
      seed script exists, and brought the services up last. */
  lemma RecreateBringsUpLast(fs: Listing, args: seq<string>, ok: Outcomes)
    ensures var t := RecreateTrace(fs, args, ok);
      t.status == Running ==>
        t.steps == RecreateOps(fs, args) &&
        |t.steps| == 3 + (if "seed" in fs then 1 else 0) &&
        t.steps[|t.steps| - 1] == Run(UpCommand(ServiceList(args)))
  {
  }

  // ---------------------------------------------------------------- service

  /** `service` as intended: when any named service already exists nothing
      is generated; otherwise each one is scaffolded in turn, stopping at
      the first failing command. */
  function ServiceTrace(fs: Listing, templateDir: string, args: seq<string>,
                        listing: nat -> seq<ErbFile>, render: Renderer, ok: Outcomes): Trace
  {
    var names := Normalise(args);
    if ExistingServices(fs, names) != [] then Trace([], Running)
    else Perform(ServiceOps(templateDir, names, listing, render), 0, ok)
  }

  /** All or nothing: one existing name blocks every scaffold and the
      command still ends normally; with none existing, a run that completes
      has copied the template, and appended the partial, for every name
      exactly once and in argument order. */
  lemma ServiceAllOrNothing(fs: Listing, templateDir: string, args: seq<string>,
                            listing: nat -> seq<ErbFile>, render: Renderer, ok: Outcomes)
    ensures var names, t := Normalise(args), ServiceTrace(fs, templateDir, args, listing, render, ok);
      ((exists i | 0 <= i < |names| :: Exists(fs, names[i])) ==> t == Trace([], Running)) &&
      ((forall i | 0 <= i < |names| :: !Exists(fs, names[i])) && t.status == Running ==>
        var copies, appends := Filter(t.steps, IsCopy), Filter(t.steps, IsAppend);
        |copies| == |names| && |appends| == |names| &&
        forall i | 0 <= i < |names| ::
          copies[i] == Run(CopyCommand(templateDir, names[i])) &&
          appends[i] == Run(AppendCommand(names[i])))
  {
    var names := Normalise(args);
    ServiceOpsCopyInArgumentOrder(templateDir, names, listing, render);
    ServiceOpsAppendInArgumentOrder(templateDir, names, listing, render);
  }

  /** The scaffold loop of `service` over new names, with `call` saying what
      the loop hands to `copy_template_into_dir` for a name. A copy step that
      raises ends the process with status 1 before anything is issued for
      that name. */
  function ScaffoldEach(templateDir: string, names: seq<string>, listing: nat -> seq<ErbFile>,
                        render: Renderer, ok: Outcomes, call: string -> CopyArgument): Trace
  {
    if names == [] then Trace([], Running)
    else
      var n := |names| - 1;
      var t := ScaffoldEach(templateDir, names[..n], listing, render, ok, call);
      if t.status != Running then t
      else match CopyTemplateIntoDir(templateDir, call(names[n]))
        case None => Trace(t.steps, Exited(1))
        case Some(copy) =>
          var u := Perform([copy] + RenderOps(names[n], listing(n), render) + AppendOps(names[n]), |t.steps|, ok);
          Trace(t.steps + u.steps, u.status)
  }

  /** With the name passed as an options hash, the loop is the intended
      `service`. */
  lemma {:induction false} ScaffoldEachWithOptions(templateDir: string, names: seq<string>,
                                                  listing: nat -> seq<ErbFile>, render: Renderer, ok: Outcomes)
    ensures ScaffoldEach(templateDir, names, listing, render, ok, name => Options(name)) ==
      Perform(ServiceOps(templateDir, names, listing, render), 0, ok)
  {
    if names != [] {
      var n := |names| - 1;
      var before := ServiceOps(templateDir, names[..n], listing, render);
      var last := ScaffoldOps(templateDir, names[n], listing(n), render);
      assert ServiceOps(templateDir, names, listing, render) == before + last;
      ScaffoldEachWithOptions(templateDir, names[..n], listing, render, ok);
      PerformAppend(before, last, 0, ok);
    }
  }

  /** As written, the loop hands over the bare name: the first copy raises,
      so nothing at all is issued and the process exits 1. */
  lemma {:induction false} ScaffoldEachWithBareName(templateDir: string, names: seq<string>,
                                                   listing: nat -> seq<ErbFile>, render: Renderer, ok: Outcomes)
    requires names != []
    ensures ScaffoldEach(templateDir, names, listing, render, ok, name => BareName(name)) == Trace([], Exited(1))
  {
    var n := |names| - 1;
    if n > 0 {
      ScaffoldEachWithBareName(templateDir, names[..n], listing, render, ok);
    }
  }

  /** `service` as written: the loop calls `copy_template_into_dir` with the
      bare name. */
  function ServiceAsWritten(fs: Listing, templateDir: string, args: seq<string>,
                            listing: nat -> seq<ErbFile>, render: Renderer, ok: Outcomes): Trace
  {
    var names := Normalise(args);
    if ExistingServices(fs, names) != [] then Trace([], Running)
    else ScaffoldEach(templateDir, names, listing, render, ok, name => BareName(name))
  }

  /** Where the intended command, with every forked command succeeding,
      copies the template for each new name, the command as written copies
      nothing and fails. */
  lemma ServiceAsWrittenNeverScaffolds(fs: Listing, templateDir: string, args: seq<string>,
                                       listing: nat -> seq<ErbFile>, render: Renderer)
    requires args != []
    requires forall i | 0 <= i < |args| :: !Exists(fs, Basename(args[i]))
    ensures ServiceAsWritten(fs, templateDir, args, listing, render, n => true) == Trace([], Exited(1))
    ensures |Filter(ServiceTrace(fs, templateDir, args, listing, render, n => true).steps, IsCopy)| == |args|
  {
    var names := Normalise(args);
    var ops := ServiceOps(templateDir, names, listing, render);
    ScaffoldEachWithBareName(templateDir, names, listing, render, n => true);
    PerformStopsAtFirstFailure(ops, 0, n => true);
    ServiceOpsCopyInArgumentOrder(templateDir, names, listing, render);
  }
}
