/**
 * The older helpers of `src/utils.js`: a prefixed writer with no rendering
 * and no line state, and a `call` whose children share an `EventEmitter`
 * instead of a one-time event. The emitter can fire 'shutdown' more than
 * once, and its shutdown listener calls `terminate` once per emission with
 * no retry.
 */
module Legacy {
  import opened Common
  import opened Text
  import opened Stream
  import opened Supervision

  // ---------------------------------------------------------------------------
  // The older prefixed writer
  // ---------------------------------------------------------------------------

  /** `${this.prefix}  | `: always decorated, a null name printing as "null". */
  function LegacyPrefix(name: Option<string>): string
  {
    NameText(name) + "  | "
  }

  /** The split ends with an empty piece, which `lines.pop()` removes. */
  predicate PopsLast(pieces: seq<string>)
  {
    |pieces| > 0 && pieces[|pieces| - 1] == ""
  }

  /** The pieces that get the prefix: the split less a trailing empty piece. */
  function Segments(pieces: seq<string>): (segs: seq<string>)
    ensures |segs| == if PopsLast(pieces) then |pieces| - 1 else |pieces|
    ensures forall i :: 0 <= i < |segs| ==> segs[i] == pieces[i]
  {
    if PopsLast(pieces) then pieces[..|pieces| - 1] else pieces
  }

  /** The `prefixed` array: each segment behind the prefix, then the popped
      empty piece, unprefixed, when there was one. */
  function PrefixPieces(prefix: string, pieces: seq<string>): (lines: seq<string>)
    ensures |lines| == |pieces|
  {
    var segs := Segments(pieces);
    seq(|segs|, i requires 0 <= i < |segs| => prefix + segs[i]) + (if PopsLast(pieces) then [""] else [])
  }

  /** The lines of one `write` call. */
  function LegacyLines(name: Option<string>, chunk: string): seq<string>
  {
    PrefixPieces(LegacyPrefix(name), ChunkLines(chunk))
  }

  /** The text one `write` call hands to the inner stream. */
  function LegacyOutput(name: Option<string>, chunk: string): string
  {
    Join(LegacyLines(name, chunk), "\n")
  }

  /** The written text ends in "\n" exactly when the normalised chunk does. */
  lemma LegacyEndsWithNewline(name: Option<string>, chunk: string)
    ensures var out := LegacyOutput(name, chunk);
            var n := NormalizeCrlf(chunk);
            (|out| > 0 && out[|out| - 1] == '\n') <==> (|n| > 0 && n[|n| - 1] == '\n')
  {
    var n := NormalizeCrlf(chunk);
    var pieces := ChunkLines(chunk);
    assert pieces == Split(n, '\n');
    SplitEndsWithSeparator(n, '\n');
    assert (|n| > 0 && n[|n| - 1] == '\n') <==> (|pieces| >= 2 && PopsLast(pieces));
    PrefixedEndsWithNewline(LegacyPrefix(name), pieces);
    assert LegacyOutput(name, chunk) == Join(PrefixPieces(LegacyPrefix(name), pieces), "\n");
  }

  /** The joined lines end in "\n" exactly when a trailing empty piece was
      popped after at least one other piece. */
  lemma PrefixedEndsWithNewline(prefix: string, pieces: seq<string>)
    requires |pieces| >= 1
    requires forall i :: 0 <= i < |pieces| ==> '\n' !in pieces[i]
    ensures var out := Join(PrefixPieces(prefix, pieces), "\n");
            (|out| > 0 && out[|out| - 1] == '\n') <==> (|pieces| >= 2 && PopsLast(pieces))
  {
    var segs := Segments(pieces);
    var ps := seq(|segs|, i requires 0 <= i < |segs| => prefix + segs[i]);
    var lines := PrefixPieces(prefix, pieces);
    if PopsLast(pieces) {
      if |pieces| >= 2 {
        assert lines == ps + [""];
        JoinAppend(ps, [""], "\n");
      } else {
        assert lines == [""];
      }
    } else {
      assert lines == ps;
      var last := segs[|segs| - 1];
      assert last != "" && '\n' !in last;
      assert (prefix + last)[|prefix + last| - 1] == last[|last| - 1];
      assert last[|last| - 1] in last;
      JoinLast(lines, "\n");
    }
  }

  /** Drops the prefix from a line that starts with it. */
  function Unprefix(prefix: string, line: string): string
  {
    if |prefix| <= |line| && line[..|prefix|] == prefix then line[|prefix|..] else line
  }

  /** Every line with the prefix dropped. */
  function Unprefixed(prefix: string, lines: seq<string>): (stripped: seq<string>)
    ensures |stripped| == |lines|
    ensures forall i :: 0 <= i < |lines| ==> stripped[i] == Unprefix(prefix, lines[i])
  {
    seq(|lines|, i requires 0 <= i < |lines| => Unprefix(prefix, lines[i]))
  }

  /** Nothing is lost: for a name without a line break, splitting the written
      text on "\n" gives the `prefixed` lines back, and taking the prefix off
      each of them and joining again gives the normalised chunk. */
  lemma LegacyOutputRoundTrip(name: Option<string>, chunk: string)
    requires '\n' !in NameText(name)
    ensures var lines := Split(LegacyOutput(name, chunk), '\n');
            && lines == LegacyLines(name, chunk)
            && Join(Unprefixed(LegacyPrefix(name), lines), "\n") == NormalizeCrlf(chunk)
  {
    assert '\n' !in LegacyPrefix(name);
    PrefixPiecesRoundTrip(LegacyPrefix(name), ChunkLines(chunk));
    JoinSplit(NormalizeCrlf(chunk), '\n');
  }

  /** `LegacyOutputRoundTrip` for any pieces free of line breaks. */
  lemma PrefixPiecesRoundTrip(prefix: string, pieces: seq<string>)
    requires '\n' !in prefix && |pieces| >= 1
    requires forall i :: 0 <= i < |pieces| ==> '\n' !in pieces[i]
    ensures var lines := PrefixPieces(prefix, pieces);
            Split(Join(lines, "\n"), '\n') == lines && Unprefixed(prefix, lines) == pieces
  {
    PrefixPiecesKeepNoNewline(prefix, pieces);
    SplitJoin(PrefixPieces(prefix, pieces), '\n');
    UnprefixPieces(prefix, pieces);
  }

  /** Prefixing adds no line break. */
  lemma PrefixPiecesKeepNoNewline(prefix: string, pieces: seq<string>)
    requires '\n' !in prefix
    requires forall i :: 0 <= i < |pieces| ==> '\n' !in pieces[i]
    ensures var lines := PrefixPieces(prefix, pieces);
            forall i :: 0 <= i < |lines| ==> '\n' !in lines[i]
  {
    var segs := Segments(pieces);
    var lines := PrefixPieces(prefix, pieces);
    forall i | 0 <= i < |lines| ensures '\n' !in lines[i] {
      if i < |segs| {
        assert lines[i] == prefix + segs[i];
      }
    }
  }

  /** Taking the prefix off every line gives the pieces back. */
  lemma UnprefixPieces(prefix: string, pieces: seq<string>)
    ensures Unprefixed(prefix, PrefixPieces(prefix, pieces)) == pieces
  {
    var segs := Segments(pieces);
    var lines := PrefixPieces(prefix, pieces);
    var stripped := Unprefixed(prefix, lines);
    forall i | 0 <= i < |pieces| ensures stripped[i] == pieces[i] {
      if i < |segs| {
        assert lines[i] == prefix + segs[i];
        assert lines[i][..|prefix|] == prefix;
        assert lines[i][|prefix|..] == segs[i];
      } else {
        assert lines[i] == "" && pieces[i] == "";
      }
    }
  }

  /** `PrefixedWritable` of `src/utils.js`. */
  class LegacyPrefixedWritable {
    const prefix: Option<string>
    const inner: Sink

    constructor(prefix: Option<string>, inner: Sink)
      ensures this.prefix == prefix && this.inner == inner
    {
      this.prefix := prefix;
      this.inner := inner;
    }

    /** `write(chunk, encoding, callback)`: always writes, an empty string
        included, then runs the callback. */
    method Write(chunk: string, hasCallback: bool) returns (fate: CallbackFate)
      modifies inner
      ensures inner.log == old(inner.log) + [LegacyOutput(prefix, chunk)]
      ensures fate == if hasCallback then RanHere else NoCallback
    {
      var head := NameText(prefix) + "  | ";
      var lines := Split(NormalizeCrlf(chunk), '\n');
      var last: seq<string> := [];
      if lines[|lines| - 1] == "" {
        lines := lines[..|lines| - 1];
        last := [""];
      }
      var prefixed := seq(|lines|, i requires 0 <= i < |lines| => head + lines[i]) + last;
      assert prefixed == LegacyLines(prefix, chunk);
      inner.Write(Join(prefixed, "\n"));
      fate := if hasCallback then RanHere else NoCallback;
    }
  }

  // ---------------------------------------------------------------------------
  // The emitter-based `call`
  // ---------------------------------------------------------------------------

  /** What the older `call` decides before spawning: no variable expansion,
      the environment passed as it is. */
  datatype LegacyPlan = LegacyPlan(labelLine: Option<string>, command: Option<string>, args: seq<string>, env: Env)

  /** The label is `name: argv joined by ' '`, printed for a given name only;
      the command is the first argument and the rest are its arguments. */
  function LegacyCallPlan(argv: seq<string>, name: Option<string>, env: Env): (p: LegacyPlan)
    ensures p.labelLine.Some? <==> NameGiven(name)
    ensures NameGiven(name) ==> p.labelLine.value == name.value + ": " + Join(argv, " ")
    ensures |argv| > 0 ==> p.command == Some(argv[0]) && p.args == argv[1..]
    ensures |argv| == 0 ==> p.command == None && p.args == []
    ensures p.env == env
  {
    LegacyPlan(
      if NameGiven(name) then Some(name.value + ": " + Join(argv, " ")) else None,
      if |argv| > 0 then Some(argv[0]) else None,
      if |argv| > 0 then argv[1..] else [],
      env)
  }

  /** The older label is the newer one for a non-interactive call in an
      environment that rewrites none of the arguments. */
  lemma LegacyLabelIsUnexpanded(argv: seq<string>, name: Option<string>, env: Env)
    requires forall i :: 0 <= i < |argv| ==> Expandvars(argv[i], env) == argv[i]
    ensures LegacyCallPlan(argv, name, env).labelLine == CallPlan(argv, name, env, false).labelLine
  {
    assert ExpandAll(argv, env) == argv;
    if NameGiven(name) {
      assert name.value + "" == name.value;
    }
  }

  /** The `EventEmitter` the children share: the signals emitted as
      'shutdown', in order. */
  class Emitter {
    var emitted: seq<Option<string>>

    constructor()
      ensures emitted == []
    {
      emitted := [];
    }
  }

  /** One call of the older `call`: its two writers, its flags and what its
      listeners did. */
  class LegacySupervisor {
    const name: Option<string>
    const pid: int
    const plan: LegacyPlan
    const emitter: Emitter?
    /** The writer for the child's stdout, into `process.stdout`. */
    const out: LegacyPrefixedWritable
    /** The writer for the child's stderr, into `process.stderr`. */
    const err: LegacyPrefixedWritable

    /** Lines printed with `console.log`. */
    var log: seq<string>
    /** The 'exit' listener, registered with `once`, has run. */
    var exitHandled: bool
    /** `shutdownHandled`. */
    var shutdownHandled: bool
    /** Calls of `terminate(p.pid)` so far. */
    var terminateCalls: nat

    /** The shutdown flag is set exactly when `terminate` has been called;
        without an emitter no listener exists to do either. */
    ghost predicate Valid()
      reads this
    {
      && (shutdownHandled <==> terminateCalls > 0)
      && (emitter == null ==> !shutdownHandled && !exitHandled)
      && out.prefix == name && err.prefix == name
    }

    /** `call(argv, { name, env, emitter })` with `pid` the id of the spawned
        child: the label, and two separate writers, one per output stream. */
    constructor(argv: seq<string>, name: Option<string>, env: Env, stdout: Sink, stderr: Sink,
                emitter: Emitter?, pid: int)
      ensures Valid()
      ensures this.name == name && this.pid == pid && this.emitter == emitter
      ensures plan == LegacyCallPlan(argv, name, env)
      ensures log == if plan.labelLine.Some? then [plan.labelLine.value] else []
      ensures fresh(out) && fresh(err) && out.inner == stdout && err.inner == stderr
      ensures !exitHandled && !shutdownHandled && terminateCalls == 0
    {
      this.name := name;
      this.pid := pid;
      this.emitter := emitter;
      var p := LegacyCallPlan(argv, name, env);
      this.plan := p;
      log := if p.labelLine.Some? then [p.labelLine.value] else [];
      this.out := new LegacyPrefixedWritable(name, stdout);
      this.err := new LegacyPrefixedWritable(name, stderr);
      exitHandled, shutdownHandled, terminateCalls := false, false, 0;
    }

    /** A chunk from the child's stdout or stderr, each to its own writer. */
    method Pipe(fromStderr: bool, chunk: string)
      requires Valid()
      modifies if fromStderr then err.inner else out.inner
      ensures fromStderr ==> err.inner.log == old(err.inner.log) + [LegacyOutput(name, chunk)]
      ensures !fromStderr ==> out.inner.log == old(out.inner.log) + [LegacyOutput(name, chunk)]
    {
      if fromStderr {
        var _ := err.Write(chunk, true);
      } else {
        var _ := out.Write(chunk, true);
      }
    }

    /** An 'exit' event of the child. The `once` listener exists only with an
        emitter and handles the first event only; it does nothing when the
        shutdown was already handled, and otherwise prints the status line for
        a named child with an exit code and emits 'shutdown' with the signal. */
    method OnExit(code: Option<int>, signal: Option<string>)
      requires Valid()
      modifies this, emitter
      ensures Valid()
      ensures exitHandled == (old(exitHandled) || emitter != null)
      ensures shutdownHandled == old(shutdownHandled) && terminateCalls == old(terminateCalls)
      ensures var runs := emitter != null && !old(exitHandled) && !old(shutdownHandled);
              && log == old(log) + (if runs && NameGiven(name) && code.Some? then [ExitMessage(name.value, code.value)] else [])
              && (emitter != null ==> emitter.emitted == old(emitter.emitted) + (if runs then [signal] else []))
    {
      if emitter != null && !exitHandled {
        exitHandled := true;
        if !shutdownHandled {
          if NameGiven(name) && code.Some? {
            log := log + [ExitMessage(name.value, code.value)];
          }
          emitter.emitted := emitter.emitted + [signal];
        }
      }
    }

    /** The 'shutdown' listener, run on every emission: sets the flag and calls
        `terminate` once, with no retry and no look at the result. */
    method OnShutdown()
      requires Valid() && emitter != null
      modifies this
      ensures Valid()
      ensures shutdownHandled && terminateCalls == old(terminateCalls) + 1
      ensures exitHandled == old(exitHandled) && log == old(log)
    {
      shutdownHandled := true;
      terminateCalls := terminateCalls + 1;
    }
  }

  /** A named child exits with code 0, emits 'shutdown' and handles it; a
      second 'exit' of the same child is then ignored. */
  method ExitThenShutdown(child: LegacySupervisor)
    requires child.Valid() && child.emitter != null && child.emitter.emitted == []
    requires NameGiven(child.name) && !child.exitHandled && !child.shutdownHandled
    modifies child, child.emitter
    ensures child.Valid()
    ensures child.emitter.emitted == [None]
    ensures child.terminateCalls == old(child.terminateCalls) + 1
    ensures |child.log| == |old(child.log)| + 1
  {
    child.OnExit(Some(0), None);
    child.OnShutdown();
    child.OnExit(Some(0), None);
  }

  /** The emitter fires again for a child that starts after a shutdown: its
      exit emits 'shutdown' a second time, and the first child's listener
      calls `terminate` again. The first child's second 'exit' is ignored. */
  method RefireScenario(stdout: Sink, stderr: Sink, firstArgv: seq<string>, secondArgv: seq<string>)
    returns (emitted: seq<Option<string>>, firstTerminates: nat, secondTerminates: nat, firstLogged: nat)
    ensures emitted == [None, Some("SIGTERM")]
    ensures firstTerminates == 2 && secondTerminates == 1 && firstLogged == 2
  {
    var emitter := new Emitter();
    var first := new LegacySupervisor(firstArgv, Some("a"), map[], stdout, stderr, emitter, 1);
    ExitThenShutdown(first);

    var second := new LegacySupervisor(secondArgv, Some("b"), map[], stdout, stderr, emitter, 2);
    second.OnExit(None, Some("SIGTERM"));
    emitted := emitter.emitted;
    first.OnShutdown();
    second.OnShutdown();
    assert |second.log| == 1;
    firstTerminates, secondTerminates, firstLogged := first.terminateCalls, second.terminateCalls, |first.log|;
  }
}
