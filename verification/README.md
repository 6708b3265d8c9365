# envelope-cli core, modelled in Dafny

envelope runs a project's development or release server from the commands
in its `envelope.yml`. This project models the core of its JavaScript
command-line tool:

- **the prefixed line writer** (`src/stream.js`), module `Stream`:
  - backspace rendering with a cursor;
  - the "tty" filter that drops blank control frames;
  - the `"<name>  | "` prefix;
  - the `beginWithNewline` flag that the two output streams of one child share;
  - the muted and the forwarding writers.
- **the one-time event** (`src/event.js`), module `Event`: a latch whose
  observers are delivered even when they are attached after the signal.
- **the supervision logic of `call`** (`src/process.js`), module `Supervision`:
  - `expandvars`;
  - argument expansion, the label line and the stdio choice;
  - the exit handler, the shutdown handler and the terminate-and-retry
    decision, as methods of a `Supervisor` that keeps the closures'
    `shutdownReceived` and `exited` flags.
- **the older helpers** (`src/utils.js`), module `Legacy`:
  - a writer with no rendering and no line state;
  - an `EventEmitter`-based `call` whose 'shutdown' can fire more than once
    and whose terminate is never retried.
- **config validation**, module `Config`. `src/validation/envelope-file.js`
  and `src/format/normalize.js` have the same logic, so one `Normalize`
  models both. In order, it checks for a missing version, then an
  unsupported version, then an unknown key; on success it returns the
  four-key object. The model assumes that the constants `ENVELOPE_FILENAME`
  and `SUPPORTED_VERSIONS`, which `src/format/normalize.js` imports, are the
  same as those `src/validation/envelope-file.js` declares. Their module,
  `src/format/constants.js`, is not part of this model.
- **the commands** (`src/commands/`), module `Commands`:
  - `develop` and `release`, which share one definition parameterised by
    `Mode`;
  - `start`, the `USAGE` text, `run` and `main`.

Modules `Text` and `Common` hold the JavaScript string primitives the code
relies on and two shared types:
- `join`;
- `split`;
- `replace` with a string pattern, which replaces the first occurrence only;
- `trim`;
- `String(n)`.

Where the code changes state it is modelled as classes with methods:
- the writers;
- the event;
- the supervisors;
- the shared line state.

Where the code only computes (`expandvars`, `normalize`, the commands) it is
modelled as functions on values. JavaScript values read from YAML are the
`Config.Value` datatype. An object lists its own properties in the order
`Object.keys` gives them.

Foreign code comes in as parameters:
- `semver` is a predicate `supported` on the version value;
- `callSync` is a function from the command line and its options object to a
  status;
- the `build` command is a function too;
- reading and parsing `envelope.yml` is a `ReadOutcome`.

`execa`, `terminate` and timers become events delivered to the supervisor's
methods:
- the child's exit;
- the shutdown delivery;
- the callback of one `terminate` call;
- the firing of the 200 ms retry timer.

Three behaviours of the code are worth knowing:

- **A trailing fragment is written at once, prefixed.** `PrefixedWritable.write`
  keeps no buffer between writes. A chunk that does not end in "\n" is
  written behind the prefix straight away. When that fragment carries no
  newline and no backspace, `lineState.beginWithNewline` stays set, so the
  next write starts with a bare prefix line. That bare
  prefix lands on the line the fragment left open: after the fragment
  "frag" and then "x\n", the console shows "web  | fragweb  | " and then a
  newline and "web  | x". `Stream.FragmentIsFlushedAtOnce` and
  `Stream.WriteBeginsWithBarePrefix` state this, and
  `Supervision.SharedLineScenario` illustrates it. So the output depends on
  how a child's output is split into chunks. A fragment that rendering
  changes, such as a progress line drawn with backspaces, sets `tty` instead
  and clears the flag (`Stream.ChangedFragmentClearsFlag`).
- **The environment arrives as the options object.** `develop` and `release`
  pass the merged environment `{...env, ENVELOPE_ENV}` to `callSync` as its
  second argument, which `callSync` reads as its options object. The model
  hands exactly that map to the `callSync` parameter.
- **A null config throws in `release`.** `release` destructures `config`
  without the `|| {}` that `develop` has, so a null or undefined config
  throws a `TypeError` there (`Commands.NullConfig`).

## Model

| member | source | states |
|---|---|---|
| Stream.Step | src/stream.js:21-30 | One character through the cursor keeps `0 <= index <= |result|`. |
| Stream.Run | src/stream.js:20-31 | The cursor stays within its text for a whole line. |
| Stream.RunAppendsWithoutBackspace | src/stream.js:27-30 | With no backspace, a cursor at the end of its text only appends: the walk gives back the text followed by the input. |
| Stream.RenderedIsCursorWalk | src/stream.js:16-17 | The `includes('\x08')` shortcut agrees with the cursor walk: a line without backspaces is rendered as itself either way. |
| Stream.RunKeepsOnlyInputCharacters | src/stream.js:20-31 | The walk's text grows by at most one character per non-backspace input character, and every character in it was already there or is a non-backspace input character. |
| Stream.RenderedProperties | src/stream.js:16-34 | `render`'s result holds no backspace and only characters of the line. It is no longer than the line's non-backspace characters. It is the line itself when the line has no backspace. |
| Stream.PrefixedWritable.Render | src/stream.js:13-35 | The loop, whose invariant is that the remaining walk reaches the full walk, returns `Rendered(line)`: no backspace, bounded length, identity without backspaces. |
| Stream.ScanKeepsUpToFirstChangeThenNonBlank | src/stream.js:43-50 | `tty` is set exactly when some line changes under rendering. Every line before the first changed one is kept as it is. From that line on, exactly the renderings that do not trim to nothing are kept, in order. |
| Stream.PrefixedWritable.RenderLines | src/stream.js:43-50 | The loop builds exactly the `rendered` array and `tty` flag of the filter `Scan`. |
| Stream.ChunkLines | src/stream.js:39 | A chunk splits into at least one line, and no line holds a newline. |
| Text.NormalizeCrlfShape | src/stream.js:39 | `replace('\r\n', '\n')` leaves a string with no "\r\n" unchanged, and changes every string that has one. It removes exactly one character, so a second "\r\n" survives. |
| Text.Split | src/stream.js:39 | `split` on one character gives at least one piece, and no piece holds the separator. |
| Text.JoinSplit | src/stream.js:39 | Re-joining the pieces of a split with the separator gives the string back. |
| Text.SplitJoin | src/stream.js:62 | Joining pieces free of the separator and splitting again gives the pieces back. |
| Text.SplitEndsWithSeparator | src/utils.js:17 | A string ends with the separator exactly when its split has two or more pieces and the last one is empty. |
| Stream.PrefixedWritable.Assemble | src/stream.js:51-62 | The pop of a trailing empty line, the `unshift('')` for `beginWithNewline`, the prefixing and the join give the joined `OutputLines`. |
| Stream.WriteOutputLines | src/stream.js:51-62 | For a name without a newline, splitting the written text on "\n" gives back the `prefixed` lines: each shown line behind the prefix, and the popped empty line bare. |
| Stream.WriteEndsWithNewline | src/stream.js:51-62 | For any name, the written text ends with "\n" exactly when a trailing empty line was popped and some prefixed line comes before it. |
| Stream.WriteBeginsWithBarePrefix | src/stream.js:54-59 | With `beginWithNewline` set, the output starts with the bare prefix, followed by a newline if anything follows. |
| Stream.FragmentIsFlushedAtOnce | src/stream.js:59-68 | For any name, a non-empty fragment without a newline or backspace is written at once as prefix plus fragment, and it leaves `beginWithNewline` set. |
| Stream.ChangedFragmentClearsFlag | src/stream.js:41-68 | A fragment without a newline that rendering changes sets `tty`, so `beginWithNewline` ends up cleared, whatever it was before. |
| Stream.PrefixedWritable.constructor | src/stream.js:4-11 | A writer without a line state gets a fresh one with the flag false. A given line state is shared as it is. |
| Stream.PrefixedWritable.Write | src/stream.js:37-73 | The prefix is `"<prefix>  | "`, or "" for an empty prefix. The inner stream receives the output only when it is non-empty. `beginWithNewline` becomes "output does not end in \n and not tty". The callback runs here. |
| Stream.MutedWritable.constructor | src/stream.js:77-82 | A new muted writer is muted. |
| Stream.MutedWritable.Write | src/stream.js:84-90 | While muted nothing reaches the inner stream and the callback runs here. Otherwise the chunk and callback go to the inner stream. |
| Stream.StrippedWritable.Write | src/stream.js:100-113 | The chunk's text is forwarded unchanged, then the callback runs. |
| Event.OneTimeEvent.constructor | src/event.js:3-8 | A new event is unsignalled, with nothing attached and `_resolve` never called. |
| Event.OneTimeEvent.Signal | src/event.js:10-15 | After `signal()` the flag is set. Only the first call resolves, delivering the waiting observers in attachment order. A later call changes nothing. |
| Event.OneTimeEvent.Then | src/event.js:17-19 | Before the signal an observer waits and nothing is delivered. After it, the observer is delivered at once. |
| Event.Replay | src/event.js:1-20 | For any sequence of calls on a new event: with no signal, nothing is delivered and `_resolve` is never called. With one, every observer attached before or after it is delivered in attachment order, and `_resolve` is called exactly once. |
| Event.LateObserverIsDelivered | src/event.js:11-19 | On a new event signalled twice, an observer attached afterwards is delivered once, and `_resolve` was called once. |
| Event.DeliveredOncePerAttachment | src/event.js:17-19 | Each observer occurs in the list of attached observers exactly as many times as `then` attached it. After a signal that list is what `Replay` delivers. |
| Supervision.MatchesVarRefExactly | src/process.js:18 | The left-to-right matcher for `/^\$(_|[A-Z])+$/` accepts exactly "$" followed by one or more of `_` and `A`–`Z`. |
| Supervision.Expandvars | src/process.js:16-19 | A non-reference comes back unchanged, including "". A reference becomes the variable's value when that value is non-empty, and stays itself when the value is empty or missing. |
| Supervision.ExpandvarsOnlyYieldsEnvValues | src/process.js:18 | A rewritten argument is always a non-empty value of the environment. |
| Supervision.ExpandAllChangesOnlyReferences | src/process.js:16-22 | An argument is changed exactly when it is a `$NAME` reference whose variable holds a non-empty value other than the reference itself. Every other argument passes through as it is. |
| Supervision.PlainArgumentsAreKept | src/process.js:22 | Arguments that do not start with "$" pass through unchanged. |
| Supervision.CallPlan | src/process.js:21-39 | The command is the first expanded argument and the rest are its arguments. The label `"<name>[ (interactive)]: <expanded joined>"` exists exactly for a given name. Interactive calls inherit all three stdio streams and nothing is piped. Otherwise stdio is ignore/pipe/pipe, into a prefixed writer exactly when a name is given. |
| Text.IntToString | src/process.js:47 | `${code}`: a non-negative code prints as decimal digits denoting exactly that value, with no leading zero unless the value is 0. A negative code prints as "-" followed by the digits of its absolute value. |
| Supervision.TerminateDecision | src/process.js:58-71 | Stop exactly when the child has exited. Retry after 200 ms exactly when it has not and there is no error or the error is ESRCH. Otherwise the error line `Could not terminate '<name>' (PID <pid>): <err>` and exit status 1. |
| Supervision.Supervisor.constructor | src/process.js:21-56 | The plan is `CallPlan`, the label is printed only for a given name, and both streams share one new writer with a fresh line state. The shutdown handler is attached to the event, and both flags start false. |
| Supervision.Supervisor.Pipe | src/process.js:34-39 | A chunk from either stream goes through the one writer, and its shared line state, into the target. Without a name it goes to the target unchanged. |
| Supervision.Supervisor.OnExit | src/process.js:43-53 | `exited` becomes true. If no shutdown was received, the exited/failed line is printed only for a given name and a non-null code, and the event is signalled. Otherwise neither happens. |
| Supervision.Supervisor.OnShutdown | src/process.js:55-75 | `shutdownReceived` is set, and the first `terminate` call is made on the pid. |
| Supervision.Supervisor.OnTerminated | src/process.js:58-72 | The callback follows `TerminateDecision`: it stops, starts the retry timer, or prints the error and exits with status 1. It keeps the invariant that a started loop is still going until the child exits. |
| Supervision.Supervisor.OnRetryTimer | src/process.js:65 | The timer calls `terminate` again on the same pid. |
| Supervision.NotFoundTwiceThenExit | src/process.js:58-67 | Two ESRCH callbacks retry twice, and after the child exits the third callback stops the loop: three attempts, no error line, no exit call. |
| Supervision.ServerFailsAndStops | src/process.js:43-72 | A named server that fails with code 1 before any shutdown prints its exit line, signals the event so that every attached handler is delivered, and its own loop stops after one `terminate` call, since it has exited. |
| Supervision.SessionScenario | src/process.js:21-75 | With two named children under one event, the server's failure prints its exit line and delivers both shutdown handlers. The server's loop stops after one attempt, and the client's, after two ESRCH retries and its exit, with one log line and no error. |
| Supervision.SharedLineScenario | src/process.js:34-39 | A fragment without a newline or backspace from a named child is written at once as prefix plus fragment, and it leaves the shared line open. |
| Legacy.LegacyPrefixedWritable.Write | src/utils.js:14-23 | It always writes, an empty chunk included: the first "\r\n" is normalised, a trailing empty piece is popped and put back bare, and every other piece gets `"<prefix>  | "` (a null prefix printing as "null"). Then the callback runs. |
| Legacy.LegacyEndsWithNewline | src/utils.js:16-18 | The written text ends with "\n" exactly when the normalised chunk does. |
| Legacy.LegacyOutputRoundTrip | src/utils.js:15-18 | For a name without a newline, splitting the written text on "\n" gives the `prefixed` lines back, and dropping the prefix from each and re-joining gives the normalised chunk. |
| Legacy.LegacyCallPlan | src/utils.js:35-41 | Arguments are not expanded. The label `"<name>: <argv joined>"` exists exactly for a given name. The command is the first argument and the environment is passed as it is. |
| Legacy.LegacyLabelIsUnexpanded | src/utils.js:36-38 | In an environment where `expandvars` leaves every argument unchanged, the older label equals the newer non-interactive one for the same arguments and environment. |
| Legacy.LegacySupervisor.constructor | src/utils.js:35-43 | The label, and two separate new writers, for the child's stdout into `process.stdout` and its stderr into `process.stderr`. |
| Legacy.LegacySupervisor.Pipe | src/utils.js:42-43 | Each stream's chunks go through its own writer into its own target. |
| Legacy.LegacySupervisor.OnExit | src/utils.js:47-55 | The `once` listener exists only with an emitter and runs for the first exit only. It does nothing once the shutdown was handled. Otherwise it prints the status line for a given name and a non-null code, and emits 'shutdown' with the signal. |
| Legacy.LegacySupervisor.OnShutdown | src/utils.js:56-59 | Every emission sets `shutdownHandled` and calls `terminate` once more, with no retry. |
| Legacy.ExitThenShutdown | src/utils.js:46-59 | A named child's exit emits 'shutdown' once, its listener calls `terminate` once, and a second exit of the same child adds nothing. |
| Legacy.RefireScenario | src/utils.js:46-59 | The emitter fires again when a second child exits after a shutdown, so the first child's listener calls `terminate` a second time: two emissions, and two and one `terminate` calls. |
| Config.Lookup | src/validation/envelope-file.js:7 | Destructuring gives `undefined` for a name that no own property has. Otherwise it gives the value of the first entry with that name, and a defined result is always one of the entries. |
| Config.ElementTexts | src/validation/envelope-file.js:14 | Each element of an array prints on its own, in order: `null` and `undefined` as "", anything else as `String(v)`. |
| Config.ToJsStringOfStringAndArray | src/validation/envelope-file.js:14 | `${config.version}` prints a string as it is, and an array as its printed elements joined with ",". |
| Config.FirstUnknown | src/validation/envelope-file.js:26-32 | The key loop finds nothing exactly when every key is whitelisted. When it finds a key, that key is not whitelisted and every key before it is. |
| Config.Normalized | src/validation/envelope-file.js:16-23 | The result is an object with exactly the keys version, develop, release and ports, in order, each holding the input's value (possibly undefined). |
| Config.Normalize | src/validation/envelope-file.js:6-35 | On success the result has exactly the four whitelisted keys, each equal to the input's value. The input is a value and is not changed. |
| Config.NormalizeReportsInOrder | src/validation/envelope-file.js:9-32 | A falsy version gives the missing-version error, whatever else holds. A version that is not supported gives the unsupported-version error before any key is looked at. Only then does the first unknown key give `Unknown envelope.yml field "<key>"`. |
| Config.NormalizeSucceedsIff | src/format/normalize.js:4-33 | Normalisation succeeds exactly for an object with a truthy, supported version and no key outside the whitelist. |
| Config.NormalizeIdempotent | src/format/normalize.js:16-30 | Normalising a normalised config succeeds and gives it back unchanged. |
| Commands.Launch | src/commands/develop.js:4-30 | A falsy section gives the missing-section error. Any `proxy` other than `false`, absent included, gives the not-implemented error. With the proxy off, a falsy command field gives the field-required error. Otherwise the line `<command> <args joined>` is printed as `server: …` and passed to `callSync` with the environment plus `ENVELOPE_ENV`, and its status is returned. Nothing is printed on error. |
| Commands.CommandLineAppends | src/commands/release.js:23 | Without arguments the command line is the command field itself. Each extra argument adds one space and the argument. |
| Commands.NullConfig | src/commands/release.js:5 | A null config is an empty config to `develop` (missing section), but a `TypeError` in `release`. |
| Commands.Start | src/commands/start.js:4-8 | `NODE_ENV` exactly "production" selects `release`; anything else, unset included, selects `develop`. |
| Commands.StartSucceedsIff | src/commands/start.js:4-8 | `start` completes normally exactly when the section the selected mode reads is present, has `proxy` off and names a command. |
| Commands.UsageLines | src/commands/index.js:11-16 | `USAGE` is the three header lines followed by start, develop, release and build, one per line, each indented by two spaces. |
| Commands.Run | src/commands/index.js:23-28 | A name outside `COMMANDS` throws `Command "<c>" not found`. Any other name calls that command with the same config, arguments and environment. |
| Commands.Main | src/commands/index.js:30-64 | The banner is printed first. A missing file prints a message and returns 0. Any other read failure is rethrown with only the banner printed and nothing reported. A falsy document is normalised as `{}`, and normalisation errors escape. Fewer than three arguments print the usage and return 0. Otherwise `argv[2]` runs with `argv[3..]`: its status is returned, and any exception is reported and returns 1. |
| Commands.MainThrowsOnlyWhileLoading | src/commands/index.js:35-63 | `main` throws exactly when the read fails with something other than ENOENT, or the config does not normalise. Every exception from a command becomes exit code 1. |
| Commands.EmptyDocumentLacksVersion | src/commands/index.js:46 | An empty or falsy document makes `main` throw the missing-version error. |

## Left out

- `onInterrupt` (src/process.js:7-13, src/utils.js:27-33): signal and readline wiring, pure I/O.
- `callSync` itself (src/process.js:81-86, src/utils.js:65-70): a synchronous child spawn. It is a parameter returning a status, so its own label line is not modelled.
- The spawn by `execa`, the `terminate` library, `setTimeout` and stream piping: these are foreign and asynchronous. They are events delivered to the supervisors' methods. The 200 ms is a value in `RetryAfter`, not a time.
- `semver`'s `coerce` and `satisfies`: the `supported` predicate parameter.
- src/format/load.js and src/index.js: load.js is the file read and YAML parse, whose outcome is the `ReadOutcome` parameter; index.js holds only re-exports. The `build` command and the `../validation` and `../format` index modules are not part of this model.
- Microtask timing: `Event` and `Supervision` record the order in which observers are handed to the settled promise, not when they run.
- Character encoding: `for...of` walks code points and `substr` counts UTF-16 units. Strings here are sequences of characters, and chunks are already strings.
- `encoding` arguments, and the fallback to `process.stdout` when no inner stream is given: a `Sink` is always given.
- `DEBUG_ENVELOPE`: the model reports exceptions and `terminate` errors in their `String(err)` form only. The wording of a `TypeError` is the engine's and is not modelled.
- `COMMANDS[command]` also finds inherited properties such as `constructor` or `toString`: `Commands.Run` treats only the four own names as commands.
- JavaScript values: numbers are integers, with no floats or NaN. An object's entries are taken to be in `Object.keys` order with unique names, which `js-yaml` provides. Functions, symbols and the properties of non-objects (such as a string's `length`) are not modelled.
- `console.log` and `console.error` output beyond the lines the model records, such as the empty line of `showUsage`, which `Commands.Main` records as "".
- `process.exit(1)`: recorded as `exitStatus`. It does not stop the other supervisors of the model.
- Legacy.LegacySupervisor.OnExit: `emitter.emit` runs every 'shutdown' listener synchronously inside the exit listener. The model records the emission and leaves the listener runs to separate `OnShutdown` calls, so it does not pin their order relative to the rest of the exit listener.
- Supervision.Supervisor.OnShutdown: the handler is modelled for a supervisor with a shutdown event, run once after the event delivered it. Without an event the source registers no handler.
