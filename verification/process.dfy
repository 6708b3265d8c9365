/**
 * The supervision logic of `call` in `src/process.js`.
 *
 * `call` expands the arguments against the environment, prints a label,
 * spawns the command through a shell, pipes the child's stdout and stderr
 * into one sink, and wires two closures that share the flags
 * `shutdownReceived` and `exited`: the natural-exit handler and the shutdown
 * handler with its terminate-and-retry loop. Spawning, `terminate` and the
 * timer are foreign: here they are events delivered to the methods of a
 * `Supervisor`, which keeps the flags and records what the closures do.
 */
module Supervision {
  import opened Common
  import opened Text
  import opened Stream
  import opened Event

  // ---------------------------------------------------------------------------
  // expandvars
  // ---------------------------------------------------------------------------

  predicate IsVarChar(c: char)
  {
    c == '_' || ('A' <= c <= 'Z')
  }

  /** The regular expression /^\$(_|[A-Z])+$/, matched from the left. */
  predicate MatchesVarRef(s: string)
  {
    |s| >= 2 && s[0] == '$' && MatchesVarChars(s[1..])
  }

  /** `(_|[A-Z])+$`: one or more variable characters up to the end. */
  predicate MatchesVarChars(t: string)
  {
    |t| >= 1 && IsVarChar(t[0]) && (|t| == 1 || MatchesVarChars(t[1..]))
  }

  /** The shape the pattern accepts, stated outright: a dollar sign and then
      one or more of `_` and `A`–`Z`, nothing else. */
  predicate IsVarRef(s: string)
  {
    |s| >= 2 && s[0] == '$' && forall i :: 1 <= i < |s| ==> IsVarChar(s[i])
  }

  lemma {:induction false} MatchesVarCharsExactly(t: string)
    ensures MatchesVarChars(t) <==> |t| >= 1 && forall i :: 0 <= i < |t| ==> IsVarChar(t[i])
  {
    if |t| > 1 {
      MatchesVarCharsExactly(t[1..]);
      assert forall i :: 1 <= i < |t| ==> t[i] == t[1..][i - 1];
    }
  }

  /** The matcher accepts exactly the variable references. */
  lemma MatchesVarRefExactly(s: string)
    ensures MatchesVarRef(s) <==> IsVarRef(s)
  {
    if |s| >= 2 {
      MatchesVarCharsExactly(s[1..]);
      assert forall i :: 1 <= i < |s| ==> s[i] == s[1..][i - 1];
    }
  }

  /** `expandvars(s, env)`: a whole-string reference `$NAME` becomes the value
      of NAME when that value is non-empty; anything else, the empty string
      included, comes back unchanged. */
  function Expandvars(s: string, env: Env): (r: string)
    ensures !IsVarRef(s) ==> r == s
    ensures IsVarRef(s) && s[1..] in env && env[s[1..]] != "" ==> r == env[s[1..]]
    ensures IsVarRef(s) && (s[1..] !in env || env[s[1..]] == "") ==> r == s
  {
    MatchesVarRefExactly(s);
    if s != "" && MatchesVarRef(s) then
      (if s[1..] in env && env[s[1..]] != "" then env[s[1..]] else s)
    else s
  }

  /** A rewritten argument is always a non-empty value of the environment. */
  lemma ExpandvarsOnlyYieldsEnvValues(s: string, env: Env)
    ensures Expandvars(s, env) != s ==> Expandvars(s, env) in env.Values && Expandvars(s, env) != ""
  {
  }

  // ---------------------------------------------------------------------------
  // Argument expansion, label, stdio
  // ---------------------------------------------------------------------------

  /** `argv.map(a => expandvars(a, env))`. */
  function ExpandAll(argv: seq<string>, env: Env): (expanded: seq<string>)
    ensures |expanded| == |argv|
    ensures forall i :: 0 <= i < |argv| ==> expanded[i] == Expandvars(argv[i], env)
  {
    seq(|argv|, i requires 0 <= i < |argv| => Expandvars(argv[i], env))
  }

  /** `name` is truthy. */
  predicate NameGiven(name: Option<string>)
  {
    name.Some? && name.value != ""
  }

  /** `${name}` in a template: a missing name prints as "null". */
  function NameText(name: Option<string>): string
  {
    if name.Some? then name.value else "null"
  }

  datatype Stdio = Inherit | Ignore | Pipe

  /** Where the child's stdout and stderr go. */
  datatype OutputRoute = NotPiped | Direct | ThroughPrefix(prefixName: string)

  /** What `call` decides before spawning. */
  datatype Plan = Plan(
    labelLine: Option<string>,
    command: Option<string>,
    args: seq<string>,
    stdio: seq<Stdio>,
    route: OutputRoute)

  function Label(name: string, interactive: bool, expanded: seq<string>): string
  {
    name + (if interactive then " (interactive)" else "") + ": " + Join(expanded, " ")
  }

  /** The decisions of `call` up to the spawn: the arguments are expanded
      one by one, in order; the command is the first expanded argument and
      the rest are its arguments; the label is printed only for a given name;
      interactive children inherit all three stdio streams and are not piped;
      otherwise stdout and stderr are both piped into one sink, a prefixed
      writer exactly when a name is given. */
  function CallPlan(argv: seq<string>, name: Option<string>, env: Env, interactive: bool): (p: Plan)
    ensures p.command.Some? <==> |argv| > 0
    ensures |argv| > 0 ==> [p.command.value] + p.args == ExpandAll(argv, env)
    ensures |argv| == 0 ==> p.args == []
    ensures p.labelLine.Some? <==> NameGiven(name)
    ensures p.labelLine.Some? ==> p.labelLine.value == Label(name.value, interactive, ExpandAll(argv, env))
    ensures interactive ==> p.stdio == [Inherit, Inherit, Inherit] && p.route == NotPiped
    ensures !interactive ==> p.stdio == [Ignore, Pipe, Pipe]
    ensures !interactive && NameGiven(name) ==> p.route == ThroughPrefix(name.value)
    ensures !interactive && !NameGiven(name) ==> p.route == Direct
  {
    var expanded := ExpandAll(argv, env);
    Plan(
      if NameGiven(name) then Some(Label(name.value, interactive, expanded)) else None,
      if |expanded| > 0 then Some(expanded[0]) else None,
      if |expanded| > 0 then expanded[1..] else [],
      if interactive then [Inherit, Inherit, Inherit] else [Ignore, Pipe, Pipe],
      if interactive then NotPiped else if NameGiven(name) then ThroughPrefix(name.value) else Direct)
  }

  // ---------------------------------------------------------------------------
  // The terminate-and-retry decision
  // ---------------------------------------------------------------------------

  /** The error a `terminate` callback receives: its `errno` and `String(err)`. */
  datatype TerminateError = TerminateError(errno: Option<string>, text: string)

  datatype Decision = Stop | RetryAfter(ms: nat) | Fatal(message: string, exitCode: int)

  /** The callback of `terminate(pid, cb)`: stop once the child has exited;
      retry after 200 ms when there was no error or the tree was not found
      (ESRCH); otherwise report and end the program with status 1. */
  function TerminateDecision(exited: bool, err: Option<TerminateError>, name: Option<string>, pid: int): (d: Decision)
    ensures d.Stop? <==> exited
    ensures d.RetryAfter? <==> !exited && (err.None? || err.value.errno == Some("ESRCH"))
    ensures d.RetryAfter? ==> d.ms == 200
    ensures d.Fatal? ==> err.Some? && d.exitCode == 1
    ensures d.Fatal? ==> d.message == "Could not terminate '" + NameText(name) + "' (PID " + IntToString(pid) + "): " + err.value.text
  {
    if exited then Stop
    else if err.None? || err.value.errno == Some("ESRCH") then RetryAfter(200)
    else Fatal("Could not terminate '" + NameText(name) + "' (PID " + IntToString(pid) + "): " + err.value.text, 1)
  }

  /** The status line of the exit handler. */
  function ExitMessage(name: string, code: int): string
  {
    name + " " + (if code == 0 then "exited" else "failed") + " with code " + IntToString(code)
  }

  // ---------------------------------------------------------------------------
  // The supervisor: the closures of `call` and their shared flags
  // ---------------------------------------------------------------------------

  class Supervisor {
    const name: Option<string>
    const pid: int
    const plan: Plan
    /** `shutdownEvent`, or null. */
    const event: OneTimeEvent?
    /** The id under which the shutdown handler waits on `event`. */
    const observer: Observer
    /** `output || process.stdout`. */
    const target: Sink
    /** The prefixed writer both output streams are piped into, when there is one. */
    const writer: PrefixedWritable?

    var shutdownReceived: bool
    var exited: bool
    /** Lines printed with `console.log`. */
    var log: seq<string>
    /** Lines printed with `console.error`. */
    var errors: seq<string>
    /** Calls of `terminate(pid, ...)` so far. */
    var attempts: nat
    /** A `terminate` call whose callback has not come yet. */
    var awaiting: bool
    /** A 200 ms retry timer that has not fired yet. */
    var timerPending: bool
    /** The status passed to `process.exit`, once it was called. */
    var exitStatus: Option<int>

    /** The retry loop starts only on shutdown and with a first attempt; at
        most one attempt or one timer is outstanding; while the program runs
        and the child has not exited, a started loop is always still going;
        the program ends only with status 1. */
    ghost predicate Valid()
      reads this, event
    {
      && (event != null ==> event.Valid() && observer in event.attached)
      && (attempts > 0 <==> shutdownReceived)
      && !(awaiting && timerPending)
      && (awaiting || timerPending ==> shutdownReceived)
      && (shutdownReceived && exitStatus.None? && !exited ==> awaiting || timerPending)
      && (exitStatus.Some? ==> exitStatus == Some(1) && !awaiting && !timerPending)
      && (writer != null ==> writer.inner == target && writer.prefix == NameText(name))
    }

    /** `call(argv, { name, env, output, shutdownEvent, interactive })`, with
        `pid` the id of the spawned child. */
    constructor(argv: seq<string>, name: Option<string>, env: Env, interactive: bool,
                target: Sink, event: OneTimeEvent?, observer: Observer, pid: int)
      requires event != null ==> event.Valid()
      modifies event
      ensures Valid()
      ensures this.name == name && this.pid == pid && this.event == event && this.target == target
      ensures plan == CallPlan(argv, name, env, interactive)
      ensures log == if plan.labelLine.Some? then [plan.labelLine.value] else []
      ensures plan.route.ThroughPrefix? <==> writer != null
      ensures writer != null ==> fresh(writer) && fresh(writer.lineState) && !writer.lineState.beginWithNewline
      ensures !shutdownReceived && !exited && attempts == 0 && !awaiting && !timerPending
      ensures errors == [] && exitStatus == None
      ensures event != null ==> event.attached == old(event.attached) + [observer]
                                && event.fired == old(event.fired)
    {
      this.name := name;
      this.pid := pid;
      this.event := event;
      this.observer := observer;
      this.target := target;
      var p := CallPlan(argv, name, env, interactive);
      this.plan := p;
      log := if p.labelLine.Some? then [p.labelLine.value] else [];
      if p.route.ThroughPrefix? {
        this.writer := new PrefixedWritable(name.value, target, null);
      } else {
        this.writer := null;
      }
      shutdownReceived, exited := false, false;
      errors, attempts, awaiting, timerPending, exitStatus := [], 0, false, false, None;
      new;
      if event != null {
        event.Then(observer);
      }
    }

    /** A chunk from the child's stdout or stderr: both go into the same sink,
        so they share one line state. */
    method Pipe(chunk: string)
      requires Valid() && plan.route != NotPiped
      modifies target, if writer != null then {writer.lineState} else {}
      ensures writer == null ==> target.log == old(target.log) + [chunk]
      ensures writer != null ==>
                var w := WriteResult(Prefix(writer.prefix), old(writer.lineState.beginWithNewline), chunk);
                && target.log == old(target.log) + (if w.output != "" then [w.output] else [])
                && writer.lineState.beginWithNewline == NextBeginWithNewline(w)
    {
      if writer != null {
        var _ := writer.Write(chunk, true);
      } else {
        target.Write(chunk);
      }
    }

    /** The handler of the child's exit (`p.then`): the flag is set; unless a
        shutdown is already under way, a status line is printed for a named
        child with an exit code, and the shutdown event is signalled. */
    method OnExit(code: Option<int>)
      requires Valid() && !exited && exitStatus.None?
      modifies this, event
      ensures Valid()
      ensures exited
      ensures shutdownReceived == old(shutdownReceived) && attempts == old(attempts)
      ensures awaiting == old(awaiting) && timerPending == old(timerPending)
      ensures errors == old(errors) && exitStatus == old(exitStatus)
      ensures old(shutdownReceived) ==> log == old(log)
      ensures old(shutdownReceived) && event != null ==> unchanged(event)
      ensures !old(shutdownReceived) ==>
                log == old(log) + (if NameGiven(name) && code.Some? then [ExitMessage(name.value, code.value)] else [])
      ensures !old(shutdownReceived) && event != null ==> event.fired
      ensures event != null ==> event.attached == old(event.attached)
    {
      exited := true;
      if !shutdownReceived {
        if NameGiven(name) && code.Some? {
          log := log + [ExitMessage(name.value, code.value)];
        }
        if event != null {
          event.Signal();
        }
      }
    }

    /** The shutdown handler, run once when the event delivers it: the flag is
        set before the first `terminate` call on the child's pid. */
    method OnShutdown()
      requires Valid() && event != null && event.fired && observer in event.delivered
      requires !shutdownReceived && exitStatus.None?
      modifies this
      ensures Valid()
      ensures shutdownReceived && attempts == 1 && awaiting && !timerPending
      ensures exited == old(exited) && log == old(log) && errors == old(errors) && exitStatus == old(exitStatus)
    {
      shutdownReceived := true;
      attempts := attempts + 1;
      awaiting := true;
    }

    /** The callback of the outstanding `terminate` call. */
    method OnTerminated(err: Option<TerminateError>)
      requires Valid() && awaiting && exitStatus.None?
      modifies this
      ensures Valid()
      ensures var d := TerminateDecision(old(exited), err, name, pid);
              && !awaiting
              && (d.Stop? ==> !timerPending && exitStatus == None && errors == old(errors))
              && (d.RetryAfter? ==> timerPending && exitStatus == None && errors == old(errors))
              && (d.Fatal? ==> !timerPending && exitStatus == Some(d.exitCode) && errors == old(errors) + [d.message])
      ensures exited == old(exited) && shutdownReceived == old(shutdownReceived)
      ensures attempts == old(attempts) && log == old(log)
    {
      awaiting := false;
      var d := TerminateDecision(exited, err, name, pid);
      match d
      case Stop =>
      case RetryAfter(_) =>
        timerPending := true;
      case Fatal(message, status) =>
        errors := errors + [message];
        exitStatus := Some(status);
    }

    /** The 200 ms timer fires: `terminate` is called again on the same pid,
        whether or not the child has exited meanwhile. */
    method OnRetryTimer()
      requires Valid() && timerPending && exitStatus.None?
      modifies this
      ensures Valid()
      ensures !timerPending && awaiting && attempts == old(attempts) + 1
      ensures exited == old(exited) && shutdownReceived == old(shutdownReceived)
      ensures log == old(log) && errors == old(errors) && exitStatus == old(exitStatus)
    {
      timerPending := false;
      attempts := attempts + 1;
      awaiting := true;
    }
  }

  /** An argument is changed by the expansion exactly when it is a variable
      reference whose variable holds a non-empty value other than the
      reference itself. */
  lemma ExpandAllChangesOnlyReferences(argv: seq<string>, env: Env)
    ensures forall i :: 0 <= i < |argv| ==>
              (ExpandAll(argv, env)[i] != argv[i]
               <==> IsVarRef(argv[i]) && argv[i][1..] in env && env[argv[i][1..]] != "" && env[argv[i][1..]] != argv[i])
  {
  }

  /** Arguments that are not variable references are passed through as they are. */
  lemma PlainArgumentsAreKept(argv: seq<string>, env: Env)
    requires forall i :: 0 <= i < |argv| ==> |argv[i]| == 0 || argv[i][0] != '$'
    ensures ExpandAll(argv, env) == argv
  {
  }

  /** A client whose shutdown loop meets a process tree that is not found
      twice, then exits: two retries, a third `terminate`, and the loop stops
      at that callback without reporting anything. */
  method NotFoundTwiceThenExit(client: Supervisor)
    requires client.Valid() && client.awaiting && client.attempts == 1
    requires !client.exited && client.exitStatus.None?
    modifies client, client.event
    ensures client.Valid()
    ensures client.event != null ==> unchanged(client.event)
    ensures client.exited && !client.awaiting && !client.timerPending && client.attempts == 3
    ensures client.exitStatus == None && client.errors == old(client.errors) && client.log == old(client.log)
  {
    var notFound := Some(TerminateError(Some("ESRCH"), "Error: kill ESRCH"));
    client.OnTerminated(notFound);
    client.OnRetryTimer();
    client.OnTerminated(notFound);
    client.OnRetryTimer();
    client.OnExit(Some(143));
    client.OnTerminated(None);
  }

  /** The server of a session fails with code 1 before any shutdown: its exit
      line is printed and the event is signalled, which delivers every waiting
      handler; its own handler then stops at the first callback, since the
      server has exited. */
  method ServerFailsAndStops(server: Supervisor)
    requires server.Valid() && server.event != null && !server.event.fired
    requires server.name == Some("server") && !server.exited && !server.shutdownReceived && server.exitStatus.None?
    modifies server, server.event
    ensures server.Valid() && server.event.fired
    ensures server.event.attached == old(server.event.attached) && server.event.delivered == server.event.attached
    ensures server.log == old(server.log) + [ExitMessage("server", 1)]
    ensures server.attempts == 1 && !server.awaiting && !server.timerPending
  {
    server.OnExit(Some(1));
    server.OnShutdown();
    server.OnTerminated(None);
  }

  /** Two named children under one shutdown event. The server fails: its
      exit handler reports it and signals the event, which delivers both
      shutdown handlers. The server's handler stops at its first callback,
      since the server has exited; the client's tree is not found twice, then
      the client exits and its loop stops with no further attempt. */
  method SessionScenario(stdout: Sink, serverArgv: seq<string>, clientArgv: seq<string>, env: Env)
    returns (delivered: seq<Observer>, serverLine: string, serverAttempts: nat, clientLogged: nat, clientErrors: seq<string>)
    ensures delivered == [1, 2]
    ensures serverLine == ExitMessage("server", 1) && serverAttempts == 1
    ensures clientLogged == 1 && clientErrors == []
  {
    var shutdown := new OneTimeEvent();
    var server := new Supervisor(serverArgv, Some("server"), env, false, stdout, shutdown, 1, 101);
    var client := new Supervisor(clientArgv, Some("client"), env, false, stdout, shutdown, 2, 102);
    assert shutdown.attached == [1, 2];
    ServerFailsAndStops(server);
    serverLine, delivered, serverAttempts := server.log[1], shutdown.delivered, server.attempts;

    client.OnShutdown();
    NotFoundTwiceThenExit(client);
    clientLogged, clientErrors := |client.log|, client.errors;
  }

  /** A named child that prints a fragment without a newline: the fragment is
      written at once behind the prefix, and the shared line state records
      that the line is open, so the next chunk, from either stream, starts on
      a fresh line. */
  method SharedLineScenario(stdout: Sink, fragment: string) returns (written: string, lineOpen: bool)
    requires fragment != "" && '\n' !in fragment && BS !in fragment
    modifies stdout
    ensures written == Prefix("web") + fragment && lineOpen
  {
    var s := new Supervisor(["npm", "start"], Some("web"), map[], false, stdout, null, 0, 7);
    assert s.writer != null && s.writer.prefix == "web";
    FragmentIsFlushedAtOnce("web", fragment);
    s.Pipe(fragment);
    assert stdout.log == old(stdout.log) + [Prefix("web") + fragment];
    written, lineOpen := stdout.log[|stdout.log| - 1], s.writer.lineState.beginWithNewline;
  }
}
