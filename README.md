# tinychat core in Dafny

This project models the sequential core of tinychat, a small interactive UDP chat and debug tool, and proves properties of that model. It covers three parts:

- **The command console** (`utils/terminal.py`). A `Terminal` has a registry mapping names to `Command`s. Names are stored exactly as given, and registering a name again overwrites the old entry. The terminal also has one exit-hook slot and a STOPPED/RUNNING state.
  - `run` reads input until the terminal stops. The model feeds it a finite trace of input events. Each event is a token list (the result of `shlex.split` on the stripped line), a quoting error, an interrupt or end of input.
  - Only the first token is lower-cased. It is looked up, and the remaining tokens are passed as positional arguments.
  - A handler called with the wrong number of arguments raises `TypeError`. That error, and every other handler fault, is reported and the loop goes on.
  - `exit` and `quit` call `_stop`. So do an interrupt and end of input. `_stop` is idempotent, and it calls the exit hook once, after the state is already STOPPED.
- **The UDP listener lifecycle** (`core/utils/udpclient.py`). A `UDPClient` holds a state, a port, a socket handle, a worker handle and one data-handler slot.
  - `listen` ignores a second start.
  - `listen` stores the requested port before it tries to bind. If only `bind` (or `settimeout`) fails, it ends STOPPED but keeps the new socket handle.
  - `stop` ignores a second stop. Otherwise it clears both handles: first the socket is closed, then the worker is joined.
  - The receive loop reads receive outcomes. It delivers each datagram once, goes on after timeouts and other errors, and ends at the first `OSError`.
- **The logger's level logic** (`core/utils/logger.py`). `LogLevel.from_string` looks up a member name without regard to case. When the name is unknown it logs an error and raises `KeyError`. `Logger.log` emits a message only when the level's value is at least the threshold's value.

## How each part is modelled

- **Recorded output.** Everything the console or the client prints is recorded, in order, as an event in a field: `out` for the console, `log` for the client. Closing the socket and joining the worker are recorded there too. This is how contracts can say which message was printed and how often a hook or handler ran.
- **The console.** The pure functions `StopF`, `ExecuteF`, `StepF`, `LoopF` and `RunF` each give the new console value after one operation. The methods `Stop`, `Execute` and `Run` are proved to produce exactly `StopF`, `ExecuteF` and `RunF` of the old value. `StepF` (one pass of the loop) and `LoopF` (the remaining passes) have no method of their own: `Run`'s loop is proved to follow them. `RegisterCommand`, `RegisterBuiltins`, `CommandDecorator`, `OnExit` and `Help` state their results in their own contracts. The lemmas about these functions state the promises of `utils/terminal.py`.
- **The UDP client.** The lifecycle methods state their whole new state. `Valid()` is an invariant that every method keeps: a RUNNING client holds a socket and a worker, and a STOPPED client holds no worker.

Three behaviours of the code are easy to miss:

- Command names are not normalised when they are registered (`utils/terminal.py:39`). Only the typed name is lower-cased (`utils/terminal.py:109`). So a command registered with an upper-case letter can never be reached from the loop, although `help` still lists it (`Terminal.UpperCaseNameIsUnreachable`).
- An empty line is not skipped silently. `shlex.split` returns `[]`, so `parts[0]` raises. The generic handler then prints an "Unexpected Error" (`Terminal.InputErrorsAreReported`).
- A fault raised by the data handler is caught by the receive loop's own `except` clauses (`core/utils/udpclient.py:88`, `:91-98`).
  - A handler that raises `OSError` ends the loop.
  - A handler that raises a timeout lets the loop go on.
  - Any other exception is reported, and the loop goes on.

## Model

| member | source | states |
|---|---|---|
| `Text.Lower` | utils/terminal.py:109 | `str.lower`: same length, no upper-case letter left, and each character kept or replaced by the same letter in lower case |
| `Text.Upper` | core/utils/logger.py:13 | `str.upper`: same length, no lower-case letter left, and each character kept or replaced by the same letter in upper case |
| `Text.StrLess` | utils/terminal.py:56 | Python's `<` on strings, which `sorted` uses: holds exactly when the first string is a proper prefix of the second or has the smaller code point at the first difference |
| `Text.LowerIsLower` | utils/terminal.py:109 | the looked-up name never contains an upper-case letter, and lower-casing leaves exactly such strings unchanged |
| `Text.UpperOfLower` | core/utils/logger.py:13 | upper-casing ignores how the input was cased |
| `Text.SortedNames` | utils/terminal.py:56 | `sorted` gives every name once, in strictly ascending code-point order |
| `Text.SortedUnique` | utils/terminal.py:56 | only one strictly sorted sequence holds a given set of names, so the listing is determined |
| `Logger.Value` | core/utils/logger.py:4-8 | `LogLevel.value`: the member's position in the declaration order |
| `Logger.Name` | core/utils/logger.py:4-8 | `LogLevel.name`: a non-empty word that upper-casing leaves unchanged |
| `Logger.ValuesFollowDeclarationOrder` | core/utils/logger.py:4-8 | values strictly increase from DEBUG to ERROR, and each value is the member's position |
| `Logger.NamesAreDistinctUpperCase` | core/utils/logger.py:4-8 | member names are upper case and distinct |
| `Logger.Log` | core/utils/logger.py:21-25 | a line is emitted iff the level's value is at least the threshold's value, and it carries that level and message |
| `Logger.Info` | core/utils/logger.py:27-29 | an INFO line, emitted iff the threshold is DEBUG or INFO |
| `Logger.Warning` | core/utils/logger.py:31-33 | a WARNING line, emitted under every threshold except ERROR |
| `Logger.Error` | core/utils/logger.py:35-37 | an ERROR line, emitted under every threshold |
| `Logger.LogDefaultsToDebug` | core/utils/logger.py:22 | `log` without a level logs at DEBUG, which only the DEBUG threshold emits |
| `Logger.EmitIsMonotone` | core/utils/logger.py:23 | if a level is emitted, every level with a value at least as high is emitted |
| `Logger.DefaultThresholdSuppressesOnlyDebug` | core/utils/logger.py:19-23 | under the default INFO threshold, only DEBUG is suppressed |
| `Logger.FromString` | core/utils/logger.py:10-16 | finds the member whose name is the upper-cased input; otherwise it raises `KeyError` for that key, after logging the invalid-level error |
| `Logger.FromStringIgnoresCase` | core/utils/logger.py:13 | any casing of a member's name finds that member |
| `Logger.FromStringOfName` | core/utils/logger.py:11-13 | round trip: a member's name, in upper or lower case, parses back to the member |
| `Terminal.BuiltinsAreHelpExitQuit` | utils/terminal.py:33-36 | the built-in registry holds exactly `help`, `exit` and `quit`, each under its own name; `exit` and `quit` both stop the console |
| `Terminal.Listing` | utils/terminal.py:54-58 | the help table lists every registered name once, in ascending order, each with its own description |
| `Terminal.InvokeF` | utils/terminal.py:80-85 | `cmd.func(*args)` with its `TypeError` and `Exception` branches: no fault escapes, registry and hook are kept, only `_stop` without arguments changes the state, an argument error is printed exactly when the call raises `TypeError` (wrong number of arguments, or the body raising it), any other exception from a user function is printed as a command error after the one call, a user function with the right arguments is called once with exactly them, and `help` without arguments prints the listing |
| `Terminal.StepF` | utils/terminal.py:101-119 | one pass of the loop body: registry and hook are kept, output only grows, and the console stops exactly on an interrupt, end of input or a stopping command without arguments |
| `Terminal.StopCallsHookOnlyWhenRunning` | utils/terminal.py:60-71 | `_stop` always ends STOPPED with registry and hook kept; from STOPPED it only prints the already-stopped message; from RUNNING without a hook it prints nothing; with a hook it calls it exactly once and, if the hook raises, catches and reports the error |
| `Terminal.StopIsIdempotent` | utils/terminal.py:60-71 | stopping twice ends STOPPED and calls the hook at most once |
| `Terminal.UnknownCommandIsReported` | utils/terminal.py:73-78 | a name that is not registered is reported, and state, registry and hook are unchanged |
| `Terminal.StepKeepsRunningUnlessStopped` | utils/terminal.py:100-119 | every fault is caught: a loop pass keeps registry and hook, and it stops the console (calling the hook once) iff the event is an interrupt, end of input, or a stopping command with no arguments |
| `Terminal.ExitWithArgumentsKeepsRunning` | utils/terminal.py:80-85 | `exit extra` is an argument error; the console stays RUNNING and prints nothing else |
| `Terminal.DispatchIgnoresCaseOfName` | utils/terminal.py:109 | lines whose first tokens differ only in case are handled identically |
| `Terminal.ExitSpellingsAgree` | utils/terminal.py:109 | `EXIT`, `Exit` and `exit` all look up `exit` |
| `Terminal.UserCommandReceivesRemainingTokens` | utils/terminal.py:80-85 | a user command gets the remaining tokens unchanged and in order, or an argument error on an arity mismatch; state, registry and hook stay as they were |
| `Terminal.UpperCaseNameIsUnreachable` | utils/terminal.py:109 | on every line, the key the loop hands `_execute` differs from any name holding an upper-case letter, so such a command never runs; `help` still lists it |
| `Terminal.InputErrorsAreReported` | utils/terminal.py:116-119 | a quoting error or an empty line is reported, and nothing else changes |
| `Terminal.LoopStopsExactlyOnStoppingEvent` | utils/terminal.py:100-119 | the loop keeps registry and hook, and ends STOPPED iff some event stops it; it then calls the hook exactly once, otherwise never |
| `Terminal.LoopIgnoresInputAfterStop` | utils/terminal.py:110-115 | once the loop has stopped, later input is never read |
| `Terminal.RunStopsExactlyOnStoppingEvent` | utils/terminal.py:87-119 | `run` while RUNNING only reports; otherwise it ends STOPPED iff some event stops it, with the hook called exactly once in that case |
| `Terminal.RunEndsStoppedOnInterruptOrEof` | utils/terminal.py:110-115 | an interrupt or end of input anywhere in the input ends `run` STOPPED |
| `Terminal.Terminal.constructor` | utils/terminal.py:22-31 | a fresh terminal is STOPPED, has no exit hook, and its registry is exactly the built-ins |
| `Terminal.Terminal.RegisterBuiltins` | utils/terminal.py:33-36 | adds the three built-ins and changes nothing else |
| `Terminal.Terminal.RegisterCommand` | utils/terminal.py:38-39 | stores the command under its name as given, overwrites any entry of that name, and leaves other entries and the rest of the state alone |
| `Terminal.Terminal.CommandDecorator` | utils/terminal.py:41-46 | registers under the given name, or under the function's own name when the given name is missing or empty |
| `Terminal.Terminal.OnExit` | utils/terminal.py:48-52 | the hook slot holds the last hook registered; nothing else changes |
| `Terminal.Terminal.Help` | utils/terminal.py:54-58 | the computed table is the sorted listing of the registry |
| `Terminal.Terminal.Stop` | utils/terminal.py:60-71 | the new console state is `StopF` of the old one |
| `Terminal.Terminal.Execute` | utils/terminal.py:73-85 | the new console state is `ExecuteF` of the old one |
| `Terminal.Terminal.Run` | utils/terminal.py:87-119 | the new console state is `RunF` of the old one and the input trace |
| `UdpClient.UDPClient.constructor` | core/utils/udpclient.py:12-18 | a fresh client is STOPPED, on port 5000, with no handler, socket or thread |
| `UdpClient.UDPClient.OnData` | core/utils/udpclient.py:26-30 | the handler slot holds the last handler registered; nothing else changes |
| `UdpClient.UDPClient.Listen` | core/utils/udpclient.py:32-57 | a second start changes nothing except printing a warning, not even the port. From STOPPED the port is always updated. A successful bind ends RUNNING with a new socket and a new worker. A failed bind ends STOPPED with a new socket and no worker. A failed socket creation ends STOPPED with the socket unchanged |
| `UdpClient.UDPClient.Stop` | core/utils/udpclient.py:59-78 | a second stop changes nothing and only prints; from RUNNING it ends STOPPED with both handles cleared, closing the socket before joining the worker |
| `UdpClient.UDPClient.ReceiveOnce` | core/utils/udpclient.py:84-98 | one pass prints or delivers exactly what its outcome calls for, and leaves the loop iff the outcome is an `OSError` |
| `UdpClient.UDPClient.ReceiveLoop` | core/utils/udpclient.py:80-98 | the loop's output is `LoopReport` of the trace, and it reads exactly `Consumed` outcomes; the rest of the client is unchanged |
| `UdpClient.Fatal` | core/utils/udpclient.py:91-98 | the break condition of `_loop`: a timeout or any other exception never ends it; a socket error always does; without a handler only a socket error does; with one, a datagram ends it exactly when the handler raises `OSError` |
| `UdpClient.Handle` | core/utils/udpclient.py:84-98 | one pass of `_loop`, output fixed exactly: a datagram goes to the handler, or to the default print when none is set; a timeout or socket error prints nothing; the error message is printed once, and last, exactly when another exception was caught; nothing else is printed |
| `UdpClient.ConsumedStopsAtFirstFatal` | core/utils/udpclient.py:91-94 | every outcome read before the last one is non-fatal (a timeout, another error, or a datagram whose handler did not raise `OSError`), and the loop stops right after the first `OSError`, whether from the socket or from the handler |
| `UdpClient.NonFatalTraceIsReadCompletely` | core/utils/udpclient.py:91-98 | without an `OSError`, every outcome is read |
| `UdpClient.HandleDeliversOnce` | core/utils/udpclient.py:87-88 | with a handler set, a datagram goes to the handler once and never to the default print |
| `UdpClient.HandlerGetsEachDatagramOnce` | core/utils/udpclient.py:85-88 | with a handler set, the datagrams read are handed to it exactly once each, in order |
| `UdpClient.DefaultPrintsEachDatagramOnce` | core/utils/udpclient.py:89-90 | with no handler set, the datagrams read are printed exactly once each, in order, and nothing is delivered |
| `UdpClient.LoopIgnoresTraceAfterFatal` | core/utils/udpclient.py:93-94 | outcomes after the first `OSError` have no effect |

## Left out

- `UDPClient.send` (`core/utils/udpclient.py:20-24`) is a one-shot network send with no state of its own, so it is not modelled.
- Real sockets are not modelled. `socket()`, `bind`, `settimeout`, `recvfrom`, `close` and datagram truncation to 1024 bytes are replaced by opaque `Socket` handles, the `SocketSetup` parameter of `Listen` and the `Receive` trace.
- Threads are not modelled: starting and joining the worker, and the visibility of `_state` across threads. The receive loop runs sequentially with the state held RUNNING. So its "print only while RUNNING" guard always holds, and the ordering "state set before the socket is closed" only matters to the concurrent worker. A failure of `Thread.start` is not modelled either.
- The prompt_toolkit session, word completer, `patch_stdout` and the `prompt` string are not modelled. The input arrives as a finite trace. When the trace runs out while the console is RUNNING, `Run` returns. The real prompt would wait for more input instead.
- `shlex.split` and `str.strip` are not modelled: a line arrives already tokenized, or as a quoting error.
- Printed text is not modelled: formatting, exception messages and the logger's `datetime.now()` timestamp. Only which message is printed is recorded.
- The bodies of user handlers, exit hooks and data handlers are not modelled. Each is reduced to how it ends. Such a body calling back into the terminal or client is not modelled, and neither is one raising a `BaseException` such as `KeyboardInterrupt`.
- Terminal.UserCommandReceivesRemainingTokens: a user handler has an exact number of positional parameters. Defaults and `*args` are not modelled.
- Text.Lower, Text.Upper: only ASCII letters change case. Python's `str.lower` and `str.upper` follow Unicode, so for example Python upper-cases `ınfo` (with a dotless i) to `INFO`, and `Logger.FromString` does not.
- `Logger._log_level` is a class attribute that nothing here writes, so the model passes it as a parameter.
- `__main__.py` is not part of this model. It is argument-parsing glue, and it calls `listen` with a parameter that `listen` does not take.
