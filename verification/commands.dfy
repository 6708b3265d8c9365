/**
 * The commands of `src/commands/`: `develop` and `release` check their
 * section of the config and build a shell command line for `callSync`,
 * `start` picks one of them from `NODE_ENV`, and `run` and `main` of
 * `src/commands/index.js` dispatch by name and turn outcomes into exit
 * codes. `callSync`, the `build` command and reading envelope.yml are
 * outside the model and come in as parameters.
 */
module Commands {
  import opened Common
  import opened Text
  import opened Config

  /** `spawnSync(...).status`: an exit code, or null for a child ended by a signal. */
  type Status = Option<int>

  /** `callSync(command, options)`, reduced to the status it returns. */
  type CallSync = (string, Env) -> Status

  /** What a command does: the lines it prints and how it completes. */
  datatype Ran = Ran(log: seq<string>, completion: Completion<Status>)

  /** The `build` command, which is not part of this model. */
  type Build = (Value, seq<string>, Env) -> Ran

  // ---------------------------------------------------------------------------
  // develop and release
  // ---------------------------------------------------------------------------

  /** The two modes share one shape and differ only in their constants. */
  datatype Mode = Development | Production

  /** The config section, the key holding the command, and `ENVELOPE_ENV`. */
  function Section(m: Mode): string { if m.Development? then "develop" else "release" }
  function CommandKey(m: Mode): string { if m.Development? then "server" else "serve" }
  function EnvelopeEnv(m: Mode): string { if m.Development? then "development" else "production" }

  function MissingSection(m: Mode): string
  {
    "Missing \"" + Section(m) + "\" field in " + ENVELOPE_FILENAME
  }

  function CommandRequired(m: Mode): string
  {
    "The \"" + CommandKey(m) + "\" field in \"" + Section(m) + "\" is required when proxy is off"
  }

  function ProxyNotImplemented(m: Mode): string
  {
    "The " + Section(m) + "-mode proxy is not yet implemented -- please set `proxy: false` in `"
    + Section(m) + "` in the meantime"
  }

  /** `[command, ...args].join(' ')`. */
  function CommandLine(command: Value, args: seq<string>): string
  {
    Join([ToJsString(command)] + args, " ")
  }

  /** The section a command reads: `develop` takes it from `config || {}`,
      `release` destructures `config` itself, which throws for null and
      undefined. */
  function SectionOf(m: Mode, config: Value): Completion<Value>
  {
    if m.Development? then Normal(if Truthy(config) then Get(config, "develop") else Undefined)
    else if config.Null? || config.Undefined? then Abrupt(TypeError)
    else Normal(Get(config, "release"))
  }

  /** `develop(config, args, env)` or `release(config, args, env)`. A falsy
      section is missing; a `proxy` other than `false`, absent included, is
      not implemented; with the proxy off the command field must be truthy,
      and then the command line is printed and passed to `callSync` with
      the environment plus `ENVELOPE_ENV`, whose status is returned. */
  function Launch(m: Mode, config: Value, args: seq<string>, env: Env, callSync: CallSync): (r: Ran)
    ensures r.completion.Normal? <==>
              SectionOf(m, config).Normal? && Truthy(SectionOf(m, config).value)
              && Get(SectionOf(m, config).value, "proxy") == Bool(false)
              && Truthy(Get(SectionOf(m, config).value, CommandKey(m)))
    ensures r.completion.Normal? ==>
              var line := CommandLine(Get(SectionOf(m, config).value, CommandKey(m)), args);
              && r.log == [CommandKey(m) + ": " + line]
              && r.completion.value == callSync(line, env[ENVELOPE_ENV := EnvelopeEnv(m)])
    ensures r.completion.Abrupt? ==> r.log == []
    ensures SectionOf(m, config).Normal? && !Truthy(SectionOf(m, config).value) ==>
              r.completion == Abrupt(Error(MissingSection(m)))
    ensures SectionOf(m, config).Normal? && Truthy(SectionOf(m, config).value)
            && Get(SectionOf(m, config).value, "proxy") != Bool(false) ==>
              r.completion == Abrupt(Error(ProxyNotImplemented(m)))
    ensures SectionOf(m, config).Normal? && Truthy(SectionOf(m, config).value)
            && Get(SectionOf(m, config).value, "proxy") == Bool(false)
            && !Truthy(Get(SectionOf(m, config).value, CommandKey(m))) ==>
              r.completion == Abrupt(Error(CommandRequired(m)))
  {
    match SectionOf(m, config)
    case Abrupt(e) => Ran([], Abrupt(e))
    case Normal(section) =>
      if !Truthy(section) then Ran([], Abrupt(Error(MissingSection(m))))
      else if Get(section, "proxy") != Bool(false) then Ran([], Abrupt(Error(ProxyNotImplemented(m))))
      else
        var command := Get(section, CommandKey(m));
        if !Truthy(command) then Ran([], Abrupt(Error(CommandRequired(m))))
        else
          var line := CommandLine(command, args);
          Ran([CommandKey(m) + ": " + line], Normal(callSync(line, env[ENVELOPE_ENV := EnvelopeEnv(m)])))
  }

  const ENVELOPE_ENV := "ENVELOPE_ENV"

  /** Without extra arguments the command line is the command field itself;
      each extra argument adds one space and the argument. */
  lemma CommandLineAppends(command: Value, args: seq<string>, extra: string)
    ensures CommandLine(command, []) == ToJsString(command)
    ensures CommandLine(command, args + [extra]) == CommandLine(command, args) + " " + extra
  {
    assert [ToJsString(command)] + (args + [extra]) == ([ToJsString(command)] + args) + [extra];
    JoinAppend([ToJsString(command)] + args, [extra], " ");
    assert Join([extra], " ") == extra;
  }

  /** Only the release command can throw a `TypeError`, and only for a null
      or undefined config; `develop` treats those as an empty config. */
  lemma NullConfig(args: seq<string>, env: Env, callSync: CallSync)
    ensures Launch(Development, Null, args, env, callSync).completion == Abrupt(Error(MissingSection(Development)))
    ensures Launch(Production, Null, args, env, callSync).completion == Abrupt(TypeError)
  {
  }

  /** `start`: `release` when `NODE_ENV` is exactly "production", `develop`
      otherwise, unset included, with the arguments passed on unchanged and
      the outcome returned as it is. */
  function Start(config: Value, args: seq<string>, env: Env, callSync: CallSync): (r: Ran)
    ensures "NODE_ENV" in env && env["NODE_ENV"] == "production" ==> r == Launch(Production, config, args, env, callSync)
    ensures !("NODE_ENV" in env && env["NODE_ENV"] == "production") ==> r == Launch(Development, config, args, env, callSync)
  {
    var m := if "NODE_ENV" in env && env["NODE_ENV"] == "production" then Production else Development;
    Launch(m, config, args, env, callSync)
  }

  /** `start` completes normally exactly when the section `NODE_ENV` selects
      is present, has its proxy off and names a command: "production" selects
      `release`, anything else `develop`. */
  lemma StartSucceedsIff(config: Value, args: seq<string>, env: Env, callSync: CallSync)
    ensures var m := if "NODE_ENV" in env && env["NODE_ENV"] == "production" then Production else Development;
            var section := SectionOf(m, config);
            Start(config, args, env, callSync).completion.Normal?
            <==> section.Normal? && Truthy(section.value) && Get(section.value, "proxy") == Bool(false)
                 && Truthy(Get(section.value, CommandKey(m)))
  {
  }

  // ---------------------------------------------------------------------------
  // run and main
  // ---------------------------------------------------------------------------

  /** `Object.keys(COMMANDS)`. */
  const CommandNames: seq<string> := ["start", "develop", "release", "build"]

  const UsageHeader: seq<string> := ["Usage: envelope [command] [options]", "", "Commands:"]

  /** `USAGE`. */
  function Usage(): string
  {
    Join(UsageHeader + ["  " + Join(CommandNames, "\n  ")], "\n")
  }

  /** Each element behind the indent. */
  function Indented(xs: seq<string>, indent: string): (ys: seq<string>)
    ensures |ys| == |xs| && forall i :: 0 <= i < |xs| ==> ys[i] == indent + xs[i]
  {
    seq(|xs|, i requires 0 <= i < |xs| => indent + xs[i])
  }

  /** Joining with "\n" plus an indent, behind one more indent, puts every
      element on a line of its own behind the indent. */
  lemma {:induction false} JoinIndented(xs: seq<string>, indent: string)
    requires |xs| >= 1
    ensures indent + Join(xs, "\n" + indent) == Join(Indented(xs, indent), "\n")
  {
    if |xs| > 1 {
      JoinIndented(xs[1..], indent);
      assert Indented(xs, indent)[1..] == Indented(xs[1..], indent);
    }
  }

  /** The usage text is the header lines followed by one line per command,
      in the order of `COMMANDS`, each indented by two spaces. */
  lemma UsageLines()
    ensures Split(Usage(), '\n') == UsageHeader + Indented(CommandNames, "  ")
  {
    var lines := UsageHeader + Indented(CommandNames, "  ");
    UsageIsJoin();
    UsagePiecesHaveNoNewline();
    IndentedLinesHaveNo(UsageHeader, CommandNames, "  ", '\n');
    SplitJoin(lines, '\n');
  }

  /** No header line and no command name contains a newline. */
  lemma UsagePiecesHaveNoNewline()
    ensures forall i :: 0 <= i < |UsageHeader| ==> '\n' !in UsageHeader[i]
    ensures forall i :: 0 <= i < |CommandNames| ==> '\n' !in CommandNames[i]
  {
  }

  /** Lines built from pieces without a character do not contain it. */
  lemma IndentedLinesHaveNo(header: seq<string>, xs: seq<string>, indent: string, c: char)
    requires forall i :: 0 <= i < |header| ==> c !in header[i]
    requires forall i :: 0 <= i < |xs| ==> c !in xs[i]
    requires c !in indent
    ensures var lines := header + Indented(xs, indent);
            forall i :: 0 <= i < |lines| ==> c !in lines[i]
  {
    var lines := header + Indented(xs, indent);
    forall i | 0 <= i < |lines|
      ensures c !in lines[i]
    {
      if i >= |header| {
        assert lines[i] == indent + xs[i - |header|];
      }
    }
  }

  /** The usage text joins the header lines and the indented command lines. */
  lemma UsageIsJoin()
    ensures Usage() == Join(UsageHeader + Indented(CommandNames, "  "), "\n")
  {
    var indented := Indented(CommandNames, "  ");
    var block := "  " + Join(CommandNames, "\n  ");
    JoinIndented(CommandNames, "  ");
    assert "\n" + "  " == "\n  ";
    assert block == Join(indented, "\n");
    JoinAppend(UsageHeader, [block], "\n");
    assert Join([block], "\n") == block;
    JoinAppend(UsageHeader, indented, "\n");
  }

  function CommandNotFound(command: string): string
  {
    "Command \"" + command + "\" not found"
  }

  /** `run(command, config, args, env)`: a name outside `COMMANDS` throws;
      any other is called with the same config, arguments and environment. */
  function Run(command: string, config: Value, args: seq<string>, env: Env, callSync: CallSync, build: Build): (r: Ran)
    ensures command !in CommandNames ==> r == Ran([], Abrupt(Error(CommandNotFound(command))))
    ensures command == "start" ==> r == Start(config, args, env, callSync)
    ensures command == "develop" ==> r == Launch(Development, config, args, env, callSync)
    ensures command == "release" ==> r == Launch(Production, config, args, env, callSync)
    ensures command == "build" ==> r == build(config, args, env)
  {
    if command == "start" then Start(config, args, env, callSync)
    else if command == "develop" then Launch(Development, config, args, env, callSync)
    else if command == "release" then Launch(Production, config, args, env, callSync)
    else if command == "build" then build(config, args, env)
    else Ran([], Abrupt(Error(CommandNotFound(command))))
  }

  /** The outcome of reading and parsing envelope.yml. */
  datatype ReadOutcome = Loaded(doc: Value) | ReadFailed(code: Option<string>, thrown: Thrown)

  /** What `main` does: lines printed with `console.log`, exceptions
      reported with `console.error`, and how it completes. */
  datatype MainRun = MainRun(log: seq<string>, errors: seq<Thrown>, completion: Completion<Status>)

  /** `main(argv, env)`, with `version` the package version, `read` the
      outcome of loading the file and `supported` the version test. */
  function Main(argv: seq<string>, env: Env, version: string, read: ReadOutcome,
                supported: Value -> bool, callSync: CallSync, build: Build): (m: MainRun)
    ensures |m.log| >= 1 && m.log[0] == "envelope: " + version
    ensures m.completion.Abrupt? ==> m.log == ["envelope: " + version] && m.errors == []
    ensures read.ReadFailed? && read.code == Some("ENOENT") ==>
              m == MainRun(["envelope: " + version, "No " + ENVELOPE_FILENAME + " found"], [], Normal(Some(0)))
    ensures read.ReadFailed? && read.code != Some("ENOENT") ==> m.completion == Abrupt(read.thrown)
    ensures read.Loaded? ==>
              var config := Normalize(if Truthy(read.doc) then read.doc else Obj([]), supported);
              && (config.Abrupt? ==> m.completion == Abrupt(config.thrown))
              && (config.Normal? && |argv| < 3 ==>
                    m == MainRun(["envelope: " + version, "", Usage()], [], Normal(Some(0))))
              && (config.Normal? && |argv| >= 3 ==>
                    var r := Run(argv[2], config.value, argv[3..], env, callSync, build);
                    && m.log == ["envelope: " + version] + r.log
                    && (r.completion.Normal? ==> m.completion == r.completion && m.errors == [])
                    && (r.completion.Abrupt? ==> m.completion == Normal(Some(1)) && m.errors == [r.completion.thrown]))
  {
    var banner := "envelope: " + version;
    match read
    case ReadFailed(code, thrown) =>
      if code != Some("ENOENT") then MainRun([banner], [], Abrupt(thrown))
      else MainRun([banner, "No " + ENVELOPE_FILENAME + " found"], [], Normal(Some(0)))
    case Loaded(doc) =>
      match Normalize(if Truthy(doc) then doc else Obj([]), supported)
      case Abrupt(e) => MainRun([banner], [], Abrupt(e))
      case Normal(config) =>
        if |argv| < 3 then MainRun([banner, "", Usage()], [], Normal(Some(0)))
        else
          var r := Run(argv[2], config, argv[3..], env, callSync, build);
          match r.completion
          case Normal(status) => MainRun([banner] + r.log, [], Normal(status))
          case Abrupt(e) => MainRun([banner] + r.log, [e], Normal(Some(1)))
  }

  /** `main` throws only while loading the config: a read failure other than
      a missing file, or a config that does not normalise. Once a command
      runs, every exception becomes exit code 1. */
  lemma MainThrowsOnlyWhileLoading(argv: seq<string>, env: Env, version: string, read: ReadOutcome,
                                   supported: Value -> bool, callSync: CallSync, build: Build)
    ensures Main(argv, env, version, read, supported, callSync, build).completion.Abrupt? <==>
              || (read.ReadFailed? && read.code != Some("ENOENT"))
              || (read.Loaded? && Normalize(if Truthy(read.doc) then read.doc else Obj([]), supported).Abrupt?)
  {
  }

  /** An empty or falsy document is an empty config, which fails for its
      missing version before anything else: `main` throws that error. */
  lemma EmptyDocumentLacksVersion(argv: seq<string>, env: Env, version: string, doc: Value,
                                  supported: Value -> bool, callSync: CallSync, build: Build)
    requires !Truthy(doc)
    ensures Main(argv, env, version, Loaded(doc), supported, callSync, build).completion == Abrupt(Error(MissingVersion))
  {
    assert Get(Obj([]), "version") == Undefined;
  }
}
