/** The command lines the CLI hands to the shell, built by the same
    interpolation as the Ruby source (an interpolated `nil` becomes the empty
    string, so a switched-off flag leaves two blanks behind). What each line
    means is stated as its blank-separated words (`Text.Words`).

    The `...Shape` lemmas below only regroup a literal concatenation into
    the `a + " " + b` form the word lemmas of `Text` take. They hold by
    evaluation and are there to keep the solver's work on each word lemma
    small; they state nothing about the CLI. */
module Commands {
  import opened Text

  /** The process-wide toggles, passed explicitly: `-V`/`--verbose` sets
      `$verbose_mode`, `--no-rm` sets `$dont_remove_containers`. */
  datatype Config = Config(verboseFlag: bool, noRmFlag: bool) {
    /** `verbose_mode?` */
    predicate VerboseMode() { verboseFlag }
    /** `remove_containers?` */
    predicate RemoveContainers() { !noRmFlag }
  }

  /** `"--rm" if remove_containers?` */
  function RmFlag(cfg: Config): string {
    if cfg.RemoveContainers() then "--rm" else ""
  }

  /** `options.test ? "-e APP_ENV=test" : ""` */
  function EnvOption(test: bool): string {
    if test then "-e APP_ENV=test" else ""
  }

  /** The test run of one service (`test`). */
  function TestCommand(cfg: Config, service: string): string {
    "docker-compose run " + RmFlag(cfg) + " " + service + " bin/test"
  }

  /** The interactive shell of one service (`shell`). */
  function ShellCommand(cfg: Config, test: bool, service: string): string {
    "docker-compose run " + RmFlag(cfg) + " " + EnvOption(test) + " " + service + " bash"
  }

  /** An ad-hoc command in a new container (`run`). */
  function RunLine(cfg: Config, test: bool, args: seq<string>): string {
    "docker-compose run " + RmFlag(cfg) + " " + EnvOption(test) + " " + Join(args)
  }

  /** `package_gems_for_service`. */
  function PackageCommand(service: string): string {
    "cd " + service + " && bundle package --all --no-install"
  }

  /** The image build of `build`, for the named services (all when none). */
  function BuildCommand(services: seq<string>): string {
    "docker-compose build " + Join(services)
  }

  /** The image rebuild of `reset`. */
  function RebuildCommand(withoutCache: bool): string {
    "docker-compose build " + (if withoutCache then "--no-cache" else "")
  }

  const KillAll := "docker-compose kill"
  const RemoveAll := "docker-compose rm --force"
  const UpAll := "docker-compose up -d --no-recreate"
  const SeedCommand := "./seed"

  function KillCommand(serviceList: string): string {
    "docker-compose kill " + serviceList
  }

  function RemoveCommand(serviceList: string): string {
    "docker-compose rm --force " + serviceList
  }

  function UpCommand(serviceList: string): string {
    "docker-compose up -d --no-recreate " + serviceList
  }

  /** The three environment checks of `doctor`, in order. */
  const DoctorChecks := ["docker", "docker-compose --version", "docker-compose ps"]

  /** The first step of `run_command`: unless output is shown or verbose
      mode is on, the command's output is discarded. */
  function Executed(cfg: Config, command: string, showingOutput: bool): (executed: string)
    ensures |command| <= |executed| && executed[..|command|] == command
  {
    if !showingOutput && !cfg.VerboseMode() then command + " &>/dev/null" else command
  }

  lemma RmFlagWords(cfg: Config)
    ensures Words(RmFlag(cfg)) == if cfg.RemoveContainers() then ["--rm"] else []
  {
    if cfg.RemoveContainers() {
      WordsOfWord("--rm");
    }
  }

  lemma EnvOptionShape()
    ensures "-e APP_ENV=test" == "-e" + " " + "APP_ENV=test"
  {
  }

  lemma EnvOptionWords(test: bool)
    ensures Words(EnvOption(test)) == if test then ["-e", "APP_ENV=test"] else []
  {
    if test {
      EnvOptionShape();
      TwoWords("-e", "APP_ENV=test");
    }
  }

  /** The words before the optional flags of `test`, `shell` and `run`. */
  lemma DockerComposeRunWords()
    ensures Words("docker-compose run") == ["docker-compose", "run"]
  {
    DockerComposeRunShape();
    TwoWords("docker-compose", "run");
  }

  lemma DockerComposeRunShape()
    ensures "docker-compose run" == "docker-compose" + " " + "run"
  {
  }

  /** The literal text of the `run` command lines, blank by blank. */
  lemma RunPrefixShape(r: string, rest: string)
    ensures "docker-compose run " + r + " " + rest == ("docker-compose run" + " " + r) + " " + rest
  {
  }

  lemma TestCommandShape(cfg: Config, service: string)
    ensures TestCommand(cfg, service) ==
      (("docker-compose run" + " " + RmFlag(cfg)) + " " + service) + " " + "bin/test"
  {
    var r := RmFlag(cfg);
    assert service + " bin/test" == service + " " + "bin/test";
    RunPrefixShape(r, service + " bin/test");
  }

  /** The test run holds `--rm` exactly when containers are removed, then
      the service and its test entry point. */
  lemma TestCommandWords(cfg: Config, service: string)
    requires service != [] && ' ' !in service
    ensures Words(TestCommand(cfg, service)) ==
      ["docker-compose", "run"] + (if cfg.RemoveContainers() then ["--rm"] else [])
      + [service, "bin/test"]
  {
    var r := RmFlag(cfg);
    TestCommandShape(cfg, service);
    WordsThenWord(("docker-compose run" + " " + r) + " " + service, "bin/test");
    WordsThenWord("docker-compose run" + " " + r, service);
    WordsOfSpaced("docker-compose run", r);
    DockerComposeRunWords();
    RmFlagWords(cfg);
  }

  lemma ShellCommandShape(cfg: Config, test: bool, service: string)
    ensures ShellCommand(cfg, test, service) ==
      (((("docker-compose run" + " " + RmFlag(cfg)) + " " + EnvOption(test)) + " " + service) + " " + "bash")
  {
    var r, e := RmFlag(cfg), EnvOption(test);
    assert service + " bash" == service + " " + "bash";
    RunPrefixShape(r, e + " " + service + " bash");
  }

  /** The shell command holds `--rm` exactly when containers are removed and
      `-e APP_ENV=test` exactly with `--test`, then the service and `bash`. */
  lemma ShellCommandWords(cfg: Config, test: bool, service: string)
    requires service != [] && ' ' !in service
    ensures Words(ShellCommand(cfg, test, service)) ==
      ["docker-compose", "run"] + (if cfg.RemoveContainers() then ["--rm"] else [])
      + (if test then ["-e", "APP_ENV=test"] else []) + [service, "bash"]
  {
    var r, e := RmFlag(cfg), EnvOption(test);
    var head := ("docker-compose run" + " " + r) + " " + e;
    ShellCommandShape(cfg, test, service);
    WordsThenWord(head + " " + service, "bash");
    WordsThenWord(head, service);
    WordsOfSpaced("docker-compose run" + " " + r, e);
    WordsOfSpaced("docker-compose run", r);
    DockerComposeRunWords();
    RmFlagWords(cfg);
    EnvOptionWords(test);
  }

  /** So a shell command never carries `--rm` with `--no-rm`, and carries
      the test environment only with `--test`. */
  lemma ShellCommandFlags(cfg: Config, test: bool, service: string)
    requires service != [] && ' ' !in service
    requires service != "--rm" && service != "APP_ENV=test"
    ensures "--rm" in Words(ShellCommand(cfg, test, service)) <==> cfg.RemoveContainers()
    ensures "APP_ENV=test" in Words(ShellCommand(cfg, test, service)) <==> test
  {
    ShellCommandWords(cfg, test, service);
    var ws := Words(ShellCommand(cfg, test, service));
    if cfg.RemoveContainers() {
      assert ws[2] == "--rm";
    }
    if test {
      assert ws[|ws| - 3] == "APP_ENV=test";
    }
  }

  lemma RunLineShape(cfg: Config, test: bool, args: seq<string>)
    ensures RunLine(cfg, test, args) ==
      (("docker-compose run" + " " + RmFlag(cfg)) + " " + EnvOption(test)) + " " + Join(args)
  {
    RunPrefixShape(RmFlag(cfg), EnvOption(test) + " " + Join(args));
  }

  /** An ad-hoc command: the user's words follow the optional flags
      unchanged. */
  lemma RunLineWords(cfg: Config, test: bool, args: seq<string>)
    ensures Words(RunLine(cfg, test, args)) ==
      ["docker-compose", "run"] + (if cfg.RemoveContainers() then ["--rm"] else [])
      + (if test then ["-e", "APP_ENV=test"] else []) + AllWords(args)
  {
    var r, e := RmFlag(cfg), EnvOption(test);
    var head := ("docker-compose run" + " " + r) + " " + e;
    RunLineShape(cfg, test, args);
    WordsOfSpaced(head, Join(args));
    WordsOfSpaced("docker-compose run" + " " + r, e);
    WordsOfSpaced("docker-compose run", r);
    DockerComposeRunWords();
    RmFlagWords(cfg);
    EnvOptionWords(test);
    WordsOfJoin(args);
  }

  lemma BuildCommandShape(services: seq<string>)
    ensures BuildCommand(services) == ("docker-compose" + " " + "build") + " " + Join(services)
  {
  }

  /** The build command names exactly the given services; with none it
      builds every service. */
  lemma BuildCommandWords(services: seq<string>)
    requires forall i | 0 <= i < |services| :: services[i] != [] && ' ' !in services[i]
    ensures Words(BuildCommand(services)) == ["docker-compose", "build"] + services
  {
    BuildCommandShape(services);
    WordsOfSpaced("docker-compose" + " " + "build", Join(services));
    TwoWords("docker-compose", "build");
    WordsOfJoin(services);
    AllWordsOfWords(services);
  }

  lemma RedirectShape(command: string)
    ensures command + " &>/dev/null" == command + " " + "&>/dev/null"
  {
  }

  /** The redirection adds exactly one word, and only when output is
      hidden and verbose mode is off. */
  lemma ExecutedWords(cfg: Config, command: string, showingOutput: bool)
    ensures Words(Executed(cfg, command, showingOutput)) ==
      Words(command) + (if !showingOutput && !cfg.VerboseMode() then ["&>/dev/null"] else [])
  {
    if !showingOutput && !cfg.VerboseMode() {
      RedirectShape(command);
      WordsThenWord(command, "&>/dev/null");
    }
  }

  /** A command followed by a space-joined list of single-word names: the
      names come out as words of their own, in order. */
  lemma WordsOfNamedCommand(head: string, names: seq<string>)
    requires forall i | 0 <= i < |names| :: names[i] != [] && ' ' !in names[i]
    ensures Words(head + " " + Join(names)) == Words(head) + names
  {
    WordsOfSpaced(head, Join(names));
    WordsOfJoin(names);
    AllWordsOfWords(names);
  }

  lemma UpAllShape()
    ensures UpAll == "docker-compose" + " " + "up" + " " + "-d" + " " + "--no-recreate"
  {
  }

  lemma UpCommandShape(serviceList: string)
    ensures UpCommand(serviceList) == UpAll + " " + serviceList
  {
  }

  lemma UpAllWords()
    ensures Words(UpAll) == ["docker-compose", "up", "-d", "--no-recreate"]
  {
    UpAllShape();
    FourWords("docker-compose", "up", "-d", "--no-recreate");
  }

  /** `start`, `restart` and `recreate` bring up exactly the named services
      (every service when none is named), without recreating running ones. */
  lemma UpCommandWords(names: seq<string>)
    requires forall i | 0 <= i < |names| :: names[i] != [] && ' ' !in names[i]
    ensures Words(UpCommand(Join(names))) == ["docker-compose", "up", "-d", "--no-recreate"] + names
  {
    UpCommandShape(Join(names));
    WordsOfNamedCommand(UpAll, names);
    UpAllWords();
  }

  lemma KillAllShape()
    ensures KillAll == "docker-compose" + " " + "kill"
  {
  }

  lemma KillCommandShape(serviceList: string)
    ensures KillCommand(serviceList) == KillAll + " " + serviceList
  {
  }

  lemma KillAllWords()
    ensures Words(KillAll) == ["docker-compose", "kill"]
  {
    KillAllShape();
    TwoWords("docker-compose", "kill");
  }

  /** `restart` and `recreate` kill exactly the named services. */
  lemma KillCommandWords(names: seq<string>)
    requires forall i | 0 <= i < |names| :: names[i] != [] && ' ' !in names[i]
    ensures Words(KillCommand(Join(names))) == ["docker-compose", "kill"] + names
  {
    KillCommandShape(Join(names));
    WordsOfNamedCommand(KillAll, names);
    KillAllWords();
  }

  lemma RemoveAllShape()
    ensures RemoveAll == "docker-compose" + " " + "rm" + " " + "--force"
  {
  }

  lemma RemoveCommandShape(serviceList: string)
    ensures RemoveCommand(serviceList) == RemoveAll + " " + serviceList
  {
  }

  lemma RemoveAllWords()
    ensures Words(RemoveAll) == ["docker-compose", "rm", "--force"]
  {
    RemoveAllShape();
    ThreeWords("docker-compose", "rm", "--force");
  }

  /** `recreate` removes exactly the named services' containers, without
      asking. */
  lemma RemoveCommandWords(names: seq<string>)
    requires forall i | 0 <= i < |names| :: names[i] != [] && ' ' !in names[i]
    ensures Words(RemoveCommand(Join(names))) == ["docker-compose", "rm", "--force"] + names
  {
    RemoveCommandShape(Join(names));
    WordsOfNamedCommand(RemoveAll, names);
    RemoveAllWords();
  }

  lemma RebuildCommandShape(flag: string)
    ensures "docker-compose build " + flag == ("docker-compose" + " " + "build") + " " + flag
  {
  }

  /** `reset` rebuilds every image, bypassing the cache exactly with
      `--without-cache`. */
  lemma RebuildCommandWords(withoutCache: bool)
    ensures Words(RebuildCommand(withoutCache)) ==
      ["docker-compose", "build"] + (if withoutCache then ["--no-cache"] else [])
  {
    var flag := if withoutCache then "--no-cache" else "";
    RebuildCommandShape(flag);
    WordsOfSpaced("docker-compose" + " " + "build", flag);
    TwoWords("docker-compose", "build");
    if withoutCache {
      WordsOfWord("--no-cache");
    }
  }
}
