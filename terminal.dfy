/** The command console of utils/terminal.py.

    A `Terminal` holds a registry of commands keyed by name, a single exit-hook
    slot and a STOPPED/RUNNING state. `run` reads lines until it is stopped;
    here the lines arrive as a finite trace of input events, each already
    tokenized (or a quoting error, an interrupt, or end of input). Whatever the
    console prints is recorded as an `Output` in the field `out`, so that which
    message was printed, and how often the exit hook ran, can be stated.

    The pure functions `StopF`, `ExecuteF`, `StepF`, `LoopF` and `RunF` say
    what each operation does to a `Console` value. The methods `Stop`,
    `Execute` and `Run` are proved equal to `StopF`, `ExecuteF` and `RunF`,
    and `Run`'s loop follows `StepF` one pass at a time and `LoopF` over the
    rest of the input; the lemmas state what the source promises about those
    functions. */
module Terminal {
  import Text
  import opened Wrappers

  datatype TerminalState = Stopped | Running

  /** How the body of a user-supplied handler ends when it is called with
      the number of arguments it takes. */
  datatype Outcome = Returns | RaisesTypeError | RaisesOther

  /** A user-supplied function: its `__name__`, its number of positional
      parameters, and how its (otherwise unseen) body ends. */
  datatype UserFunc = UserFunc(name: string, arity: nat, outcome: Outcome)

  /** The callable a command holds: the bound built-ins `_help` and `_stop`,
      which take no arguments, or a user function. */
  datatype Handler = HelpHandler | StopHandler | UserHandler(fn: UserFunc)

  /** `Command(name, func, description)`. */
  datatype Command = Command(name: string, func: Handler, description: string)

  /** A registered exit hook: its name and whether its body raises. */
  datatype ExitHook = ExitHook(name: string, raises: bool)

  datatype HelpEntry = HelpEntry(name: string, description: string)

  /** The messages the console prints, and the calls it makes, in order. */
  datatype Output =
    | AlreadyStopped                           // "Terminal is already stopped."
    | ExitHookCalled(hook: string)
    | ExitHookError(hook: string)              // "Error executing exit handler: ..."
    | UnknownCommand(command: string)          // "Unknown command: '...'."
    | HandlerCalled(fn: string, args: seq<string>)
    | ArgumentError(command: string)           // "Argument Error executing '...': ..."
    | CommandError(command: string)            // "Error executing '...': ..."
    | HelpListing(entries: seq<HelpEntry>)     // the `help` table
    | AlreadyRunning                           // "Terminal is already running."
    | Intro(text: string)
    | SyntaxError                              // "Syntax Error: Check your quotes."
    | UnexpectedError                          // "Unexpected Error: ..."

  /** One read from the prompt: the tokens `shlex.split` produced from the
      stripped line, a `ValueError` from `shlex.split` (unbalanced quotes),
      `KeyboardInterrupt`, or `EOFError`. */
  datatype InputEvent = Line(tokens: seq<string>) | QuoteError | Interrupt | EndOfInput

  /** The console's observable state as a value. */
  datatype Console = Console(
    state: TerminalState,
    registry: map<string, Command>,
    exitHook: Option<ExitHook>,
    out: seq<Output>)

  const DefaultPrompt: string := "> "
  const DefaultIntro: string := "Hello There! Type 'help' or 'exit'."

  /** The commands `_register_builtins` installs. */
  function Builtins(): map<string, Command>
  {
    map[
      "help" := Command("help", HelpHandler, "Show available commands"),
      "exit" := Command("exit", StopHandler, "Exit the application"),
      "quit" := Command("quit", StopHandler, "Exit the application")]
  }

  /** A fresh console holds exactly `help`, `exit` and `quit`; the first lists
      the commands and the other two stop the console. */
  lemma BuiltinsAreHelpExitQuit()
    ensures Builtins().Keys == {"help", "exit", "quit"}
    ensures forall n :: n in Builtins() ==> Builtins()[n].name == n
    ensures Builtins()["help"].func == HelpHandler
    ensures Builtins()["exit"].func == StopHandler && Builtins()["quit"].func == StopHandler
  {
  }

  /** The `help` table: every registered name in ascending order, with its
      description. */
  ghost function Listing(registry: map<string, Command>): (entries: seq<HelpEntry>)
    ensures |entries| == |registry|
    ensures Text.StrictlySorted(seq(|entries|, i requires 0 <= i < |entries| => entries[i].name))
    ensures forall i :: 0 <= i < |entries| ==>
              entries[i].name in registry && entries[i].description == registry[entries[i].name].description
    ensures forall n :: n in registry ==> exists i :: 0 <= i < |entries| && entries[i].name == n
  {
    var names := Text.SortedNames(registry.Keys);
    assert |registry.Keys| == |registry|;
    var entries := seq(|names|, i requires 0 <= i < |names| => HelpEntry(names[i], registry[names[i]].description));
    assert seq(|entries|, i requires 0 <= i < |entries| => entries[i].name) == names;
    assert forall n :: n in registry ==> exists i :: 0 <= i < |names| && names[i] == n;
    entries
  }

  // ---------------------------------------------------------------------
  // What each operation does to a console

  /** What the exit hook prints when `_stop` calls it. */
  function HookReport(hook: ExitHook): seq<Output>
  {
    [ExitHookCalled(hook.name)] + (if hook.raises then [ExitHookError(hook.name)] else [])
  }

  /** `_stop`. */
  ghost function StopF(c: Console): Console
  {
    if c.state == Stopped then c.(out := c.out + [AlreadyStopped])
    else
      match c.exitHook
      case None => c.(state := Stopped)
      case Some(hook) => c.(state := Stopped, out := c.out + HookReport(hook))
  }

  /** What a user handler's outcome adds after the call. */
  function OutcomeReport(command: string, outcome: Outcome): seq<Output>
  {
    match outcome
    case Returns => []
    case RaisesTypeError => [ArgumentError(command)]
    case RaisesOther => [CommandError(command)]
  }

  /** Whether calling `handler` with `args` positional arguments raises
      `TypeError` before its body runs: the built-ins take none, a user
      function exactly its arity. */
  predicate ArityMismatch(handler: Handler, args: seq<string>)
  {
    match handler
    case HelpHandler => args != []
    case StopHandler => args != []
    case UserHandler(fn) => |args| != fn.arity
  }

  /** `cmd.func(*args)` inside `_execute`'s try block, for the command
      `command`. No fault escapes: registry and hook are kept, only `_stop`
      called without arguments changes the state, an argument error is
      reported exactly when the call raises `TypeError`, any other exception
      from a user function is reported as a command error, and a user
      function called with the right arguments is called once with exactly
      them. */
  ghost function InvokeF(c: Console, command: string, handler: Handler, args: seq<string>): (r: Console)
    ensures r.registry == c.registry && r.exitHook == c.exitHook
    ensures c.out <= r.out
    ensures r.state == if handler == StopHandler && args == [] then Stopped else c.state
    ensures ArityMismatch(handler, args) ==> r.out == c.out + [ArgumentError(command)]
    ensures ArgumentError(command) in r.out[|c.out|..] <==>
              ArityMismatch(handler, args) || (handler.UserHandler? && handler.fn.outcome == RaisesTypeError)
    ensures handler.UserHandler? && !ArityMismatch(handler, args) ==>
              |r.out| == |c.out| + (if handler.fn.outcome == Returns then 1 else 2) &&
              r.out[|c.out|] == HandlerCalled(handler.fn.name, args)
    ensures handler.UserHandler? && !ArityMismatch(handler, args) && handler.fn.outcome == RaisesOther ==>
              r.out == c.out + [HandlerCalled(handler.fn.name, args), CommandError(command)]
    ensures handler == HelpHandler && args == [] ==> r.out == c.out + [HelpListing(Listing(c.registry))]
  {
    match handler
    case HelpHandler =>
      if args != [] then c.(out := c.out + [ArgumentError(command)])
      else c.(out := c.out + [HelpListing(Listing(c.registry))])
    case StopHandler =>
      if args != [] then c.(out := c.out + [ArgumentError(command)])
      else StopF(c)
    case UserHandler(fn) =>
      if |args| != fn.arity then c.(out := c.out + [ArgumentError(command)])
      else
        var r := c.(out := c.out + [HandlerCalled(fn.name, args)] + OutcomeReport(command, fn.outcome));
        assert r.out[|c.out|..] == [HandlerCalled(fn.name, args)] + OutcomeReport(command, fn.outcome);
        r
  }

  /** `_execute(name, args)`. */
  ghost function ExecuteF(c: Console, name: string, args: seq<string>): Console
  {
    if name !in c.registry then c.(out := c.out + [UnknownCommand(name)])
    else InvokeF(c, name, c.registry[name].func, args)
  }

  predicate Ends(ev: InputEvent)
  {
    ev.Interrupt? || ev.EndOfInput?
  }

  /** One pass of `run`'s loop body. An empty line makes `parts[0]` raise,
      which the generic handler reports. No pass changes the registry or the
      hook, and a pass stops the console exactly on an event that
      `StopsConsole` names. */
  ghost function StepF(c: Console, ev: InputEvent): (r: Console)
    ensures r.registry == c.registry && r.exitHook == c.exitHook
    ensures c.out <= r.out
    ensures r.state == if StopsConsole(c.registry, ev) then Stopped else c.state
  {
    match ev
    case Line(tokens) =>
      if tokens == [] then c.(out := c.out + [UnexpectedError])
      else ExecuteF(c, Text.Lower(tokens[0]), tokens[1..])
    case QuoteError => c.(out := c.out + [SyntaxError])
    case Interrupt => StopF(c)
    case EndOfInput => StopF(c)
  }

  /** `while self._state == RUNNING: ...` over the events still to be read. */
  ghost function LoopF(c: Console, events: seq<InputEvent>): Console
    decreases |events|
  {
    if c.state != Running || events == [] then c
    else
      var next := StepF(c, events[0]);
      if Ends(events[0]) then next else LoopF(next, events[1..])
  }

  /** `run()`. */
  ghost function RunF(c: Console, intro: string, events: seq<InputEvent>): Console
  {
    if c.state == Running then c.(out := c.out + [AlreadyRunning])
    else LoopF(c.(state := Running, out := c.out + [Intro(intro)]), events)
  }

  // ---------------------------------------------------------------------
  // Properties

  /** How many times the exit hook was called. */
  function HookCalls(outs: seq<Output>): nat
  {
    if outs == [] then 0
    else (if outs[0].ExitHookCalled? then 1 else 0) + HookCalls(outs[1..])
  }

  lemma {:induction false} HookCallsAppend(a: seq<Output>, b: seq<Output>)
    ensures HookCalls(a + b) == HookCalls(a) + HookCalls(b)
  {
    if a == [] {
      assert a + b == b;
    } else {
      assert (a + b)[1..] == a[1..] + b;
      HookCallsAppend(a[1..], b);
    }
  }

  /** `_stop` always leaves the console STOPPED with its registry and hook
      in place. From STOPPED it only says so. From RUNNING it calls the hook,
      if any, exactly once, and a hook that raises is caught and reported. */
  lemma StopCallsHookOnlyWhenRunning(c: Console)
    ensures StopF(c).state == Stopped
    ensures StopF(c).registry == c.registry && StopF(c).exitHook == c.exitHook
    ensures c.out <= StopF(c).out
    ensures c.state == Stopped ==> StopF(c).out == c.out + [AlreadyStopped]
    ensures c.state == Running && c.exitHook.None? ==> StopF(c).out == c.out
    ensures c.state == Running && c.exitHook.Some? ==>
              StopF(c).out[|c.out|..] ==
                [ExitHookCalled(c.exitHook.value.name)] +
                (if c.exitHook.value.raises then [ExitHookError(c.exitHook.value.name)] else [])
    ensures HookCalls(StopF(c).out[|c.out|..]) ==
              if c.state == Running && c.exitHook.Some? then 1 else 0
  {
    var d := StopF(c);
    if c.state == Running && c.exitHook.Some? {
      var report := HookReport(c.exitHook.value);
      assert d.out[|c.out|..] == report;
      assert HookCalls(report) == 1 + HookCalls(report[1..]);
    }
  }

  /** Stopping twice calls the hook at most once. */
  lemma StopIsIdempotent(c: Console)
    ensures StopF(StopF(c)).state == Stopped
    ensures StopF(StopF(c)).registry == c.registry && StopF(StopF(c)).exitHook == c.exitHook
    ensures c.out <= StopF(StopF(c)).out
    ensures HookCalls(StopF(StopF(c)).out[|c.out|..]) ==
              if c.state == Running && c.exitHook.Some? then 1 else 0
  {
    var d := StopF(c);
    var e := StopF(d);
    StopCallsHookOnlyWhenRunning(c);
    StopCallsHookOnlyWhenRunning(d);
    assert e.out[|c.out|..] == d.out[|c.out|..] + e.out[|d.out|..];
    HookCallsAppend(d.out[|c.out|..], e.out[|d.out|..]);
  }

  /** A name missing from the registry is reported and changes nothing else. */
  lemma UnknownCommandIsReported(c: Console, name: string, args: seq<string>)
    requires name !in c.registry
    ensures ExecuteF(c, name, args).state == c.state
    ensures ExecuteF(c, name, args).registry == c.registry
    ensures ExecuteF(c, name, args).exitHook == c.exitHook
    ensures ExecuteF(c, name, args).out == c.out + [UnknownCommand(name)]
  {
  }

  /** Whether reading `ev` on a RUNNING console stops it: an interrupt, the end
      of input, or a line naming a stopping command with no arguments. */
  predicate StopsConsole(registry: map<string, Command>, ev: InputEvent)
  {
    Ends(ev) ||
    (ev.Line? && |ev.tokens| == 1 && Text.Lower(ev.tokens[0]) in registry &&
     registry[Text.Lower(ev.tokens[0])].func == StopHandler)
  }

  /** Every handler fault is caught: no command changes the registry or the
      hook, only a stopping command called without arguments changes the
      state, and the hook runs only then. */
  lemma {:induction false} StepKeepsRunningUnlessStopped(c: Console, ev: InputEvent)
    requires c.state == Running
    ensures StepF(c, ev).registry == c.registry && StepF(c, ev).exitHook == c.exitHook
    ensures c.out <= StepF(c, ev).out
    ensures StepF(c, ev).state == Stopped <==> StopsConsole(c.registry, ev)
    ensures HookCalls(StepF(c, ev).out[|c.out|..]) ==
              if StopsConsole(c.registry, ev) && c.exitHook.Some? then 1 else 0
  {
    var d := StepF(c, ev);
    if StopsConsole(c.registry, ev) {
      StopCallsHookOnlyWhenRunning(c);
    } else {
      var extra := d.out[|c.out|..];
      assert d.out == c.out + extra;
      assert forall k :: 0 <= k < |extra| ==> !extra[k].ExitHookCalled?;
      NoHookCallsIn(extra);
    }
  }

  lemma {:induction false} NoHookCallsIn(outs: seq<Output>)
    requires forall k :: 0 <= k < |outs| ==> !outs[k].ExitHookCalled?
    ensures HookCalls(outs) == 0
  {
    if outs != [] {
      NoHookCallsIn(outs[1..]);
    }
  }

  /** `exit extra` calls the zero-argument `_stop` with one argument: the
      TypeError is reported as an argument error and the console keeps
      running. */
  lemma ExitWithArgumentsKeepsRunning(c: Console, token: string, rest: seq<string>)
    requires c.state == Running
    requires Text.Lower(token) in c.registry && c.registry[Text.Lower(token)].func == StopHandler
    requires rest != []
    ensures StepF(c, Line([token] + rest)).state == Running
    ensures StepF(c, Line([token] + rest)).out == c.out + [ArgumentError(Text.Lower(token))]
  {
    assert ([token] + rest)[1..] == rest;
  }

  /** Only the first token is lower-cased: spellings that differ only in the
      case of the command name dispatch identically. */
  lemma DispatchIgnoresCaseOfName(c: Console, a: string, b: string, rest: seq<string>)
    requires Text.Lower(a) == Text.Lower(b)
    ensures StepF(c, Line([a] + rest)) == StepF(c, Line([b] + rest))
  {
    assert ([a] + rest)[1..] == rest && ([b] + rest)[1..] == rest;
  }

  /** `EXIT`, `Exit` and `exit` all reach the entry `exit`. */
  lemma ExitSpellingsAgree()
    ensures Text.Lower("EXIT") == "exit" && Text.Lower("Exit") == "exit" && Text.Lower("exit") == "exit"
  {
  }

  /** A user command receives the remaining tokens unchanged and in order, or
      an argument error when their number does not match its arity; either
      way the console's state, registry and hook are untouched. */
  lemma UserCommandReceivesRemainingTokens(c: Console, token: string, rest: seq<string>, fn: UserFunc)
    requires Text.Lower(token) in c.registry && c.registry[Text.Lower(token)].func == UserHandler(fn)
    ensures StepF(c, Line([token] + rest)).state == c.state
    ensures StepF(c, Line([token] + rest)).registry == c.registry
    ensures StepF(c, Line([token] + rest)).exitHook == c.exitHook
    ensures |rest| == fn.arity ==>
              StepF(c, Line([token] + rest)).out ==
                c.out + [HandlerCalled(fn.name, rest)] + OutcomeReport(Text.Lower(token), fn.outcome)
    ensures |rest| != fn.arity ==>
              StepF(c, Line([token] + rest)).out == c.out + [ArgumentError(Text.Lower(token))]
  {
    assert ([token] + rest)[1..] == rest;
  }

  /** Names are stored as given but looked up lower-cased: on every line the
      loop hands `_execute` a key other than a name holding an upper-case
      letter, so such a command never runs, although `help` still lists it. */
  lemma UpperCaseNameIsUnreachable(c: Console, name: string, tokens: seq<string>)
    requires !Text.IsLower(name)
    requires tokens != []
    ensures exists key :: key != name && StepF(c, Line(tokens)) == ExecuteF(c, key, tokens[1..])
    ensures name in c.registry ==>
              exists i :: 0 <= i < |Listing(c.registry)| && Listing(c.registry)[i].name == name
  {
    var key := Text.Lower(tokens[0]);
    assert key != name;
    assert StepF(c, Line(tokens)) == ExecuteF(c, key, tokens[1..]);
    var entries := Listing(c.registry);
    if name in c.registry {
      var i :| 0 <= i < |entries| && entries[i].name == name;
    }
  }

  /** A quoting error or an empty line is reported and the loop goes on. */
  lemma InputErrorsAreReported(c: Console)
    ensures StepF(c, QuoteError) == c.(out := c.out + [SyntaxError])
    ensures StepF(c, Line([])) == c.(out := c.out + [UnexpectedError])
  {
  }

  /** The loop, started RUNNING, leaves registry and hook alone, ends STOPPED
      exactly when some event stops the console, and has then called the
      exit hook (if any) exactly once, otherwise never. */
  lemma {:induction false} LoopStopsExactlyOnStoppingEvent(c: Console, events: seq<InputEvent>)
    requires c.state == Running
    ensures LoopF(c, events).registry == c.registry && LoopF(c, events).exitHook == c.exitHook
    ensures c.out <= LoopF(c, events).out
    ensures LoopF(c, events).state == Stopped <==>
              exists i :: 0 <= i < |events| && StopsConsole(c.registry, events[i])
    ensures HookCalls(LoopF(c, events).out[|c.out|..]) ==
              if LoopF(c, events).state == Stopped && c.exitHook.Some? then 1 else 0
    decreases |events|
  {
    var d := LoopF(c, events);
    if events == [] {
      assert d.out[|c.out|..] == [];
    } else {
      var next := StepF(c, events[0]);
      StepKeepsRunningUnlessStopped(c, events[0]);
      if Ends(events[0]) || next.state == Stopped {
        assert d == next;
      } else {
        var rest := events[1..];
        LoopStopsExactlyOnStoppingEvent(next, rest);
        assert d == LoopF(next, rest);
        if d.state == Stopped {
          var i :| 0 <= i < |rest| && StopsConsole(next.registry, rest[i]);
          assert events[i + 1] == rest[i];
        } else {
          forall i | 0 <= i < |events|
            ensures !StopsConsole(c.registry, events[i])
          {
            if i > 0 { assert events[i] == rest[i - 1]; }
          }
        }
        assert d.out[|c.out|..] == next.out[|c.out|..] + d.out[|next.out|..];
        HookCallsAppend(next.out[|c.out|..], d.out[|next.out|..]);
      }
    }
  }

  /** Once the loop has stopped, later input is never read. */
  lemma {:induction false} LoopIgnoresInputAfterStop(c: Console, read: seq<InputEvent>, later: seq<InputEvent>)
    requires LoopF(c, read).state == Stopped
    ensures LoopF(c, read + later) == LoopF(c, read)
    decreases |read|
  {
    if c.state == Running && read != [] {
      assert (read + later)[0] == read[0];
      var next := StepF(c, read[0]);
      if !Ends(read[0]) {
        assert (read + later)[1..] == read[1..] + later;
        LoopIgnoresInputAfterStop(next, read[1..], later);
      }
    }
  }

  /** `run` on a RUNNING console only reports it. Otherwise it runs the loop
      from RUNNING: an interrupt or end of input (or `exit`/`quit` without
      arguments) ends it STOPPED, with the exit hook called exactly once;
      without such an event it is still RUNNING when the input runs out. */
  lemma RunStopsExactlyOnStoppingEvent(c: Console, intro: string, events: seq<InputEvent>)
    ensures c.state == Running ==> RunF(c, intro, events) == c.(out := c.out + [AlreadyRunning])
    ensures RunF(c, intro, events).registry == c.registry && RunF(c, intro, events).exitHook == c.exitHook
    ensures c.out <= RunF(c, intro, events).out
    ensures c.state == Stopped ==>
              (RunF(c, intro, events).state == Stopped <==>
                 exists i :: 0 <= i < |events| && StopsConsole(c.registry, events[i]))
    ensures HookCalls(RunF(c, intro, events).out[|c.out|..]) ==
              if c.state == Stopped && RunF(c, intro, events).state == Stopped && c.exitHook.Some? then 1 else 0
  {
    if c.state == Stopped {
      var start := c.(state := Running, out := c.out + [Intro(intro)]);
      var d := LoopF(start, events);
      LoopStopsExactlyOnStoppingEvent(start, events);
      assert d.out[|c.out|..] == [Intro(intro)] + d.out[|start.out|..];
      HookCallsAppend([Intro(intro)], d.out[|start.out|..]);
    } else {
      assert RunF(c, intro, events).out[|c.out|..] == [AlreadyRunning];
    }
  }

  /** An interrupt or end of input anywhere in the trace ends `run` STOPPED. */
  lemma RunEndsStoppedOnInterruptOrEof(c: Console, intro: string, events: seq<InputEvent>, k: nat)
    requires c.state == Stopped
    requires k < |events| && Ends(events[k])
    ensures RunF(c, intro, events).state == Stopped
  {
    RunStopsExactlyOnStoppingEvent(c, intro, events);
    assert StopsConsole(c.registry, events[k]);
  }

  // ---------------------------------------------------------------------
  // The console object

  class Terminal {
    const prompt: string
    const intro: string
    var state: TerminalState
    var registry: map<string, Command>
    var exitHook: Option<ExitHook>
    var out: seq<Output>

    function Snapshot(): Console
      reads this
    {
      Console(state, registry, exitHook, out)
    }

    /** `Terminal.__init__`: STOPPED, no exit hook, only the built-ins. */
    constructor (prompt: string := DefaultPrompt, intro: string := DefaultIntro)
      ensures this.prompt == prompt && this.intro == intro
      ensures state == Stopped && exitHook == None && out == []
      ensures registry == Builtins()
    {
      this.prompt := prompt;
      this.intro := intro;
      state := Stopped;
      registry := map[];
      exitHook := None;
      out := [];
      new;
      RegisterBuiltins();
    }

    /** `_register_builtins`. */
    method RegisterBuiltins()
      modifies this
      ensures registry == old(registry) + Builtins()
      ensures state == old(state) && exitHook == old(exitHook) && out == old(out)
    {
      RegisterCommand(HelpHandler, "help", "Show available commands");
      RegisterCommand(StopHandler, "exit", "Exit the application");
      RegisterCommand(StopHandler, "quit", "Exit the application");
    }

    /** `_register_command`: stores the command under its name exactly as
        given, replacing any entry of that name. */
    method RegisterCommand(func: Handler, name: string, description: string := "")
      modifies this
      ensures registry == old(registry)[name := Command(name, func, description)]
      ensures state == old(state) && exitHook == old(exitHook) && out == old(out)
    {
      registry := registry[name := Command(name, func, description)];
    }

    /** The `command` decorator: registers `fn` under `name`, or under the
        function's own name when `name` is missing or empty. */
    method CommandDecorator(name: Option<string>, fn: UserFunc, description: string := "")
      modifies this
      ensures var n := if name.Some? && name.value != "" then name.value else fn.name;
              registry == old(registry)[n := Command(n, UserHandler(fn), description)]
      ensures state == old(state) && exitHook == old(exitHook) && out == old(out)
    {
      var commandName := if name.Some? && name.value != "" then name.value else fn.name;
      RegisterCommand(UserHandler(fn), commandName, description);
    }

    /** The `on_exit` decorator: the last hook registered wins. */
    method OnExit(hook: ExitHook)
      modifies this
      ensures exitHook == Some(hook)
      ensures state == old(state) && registry == old(registry) && out == old(out)
    {
      exitHook := Some(hook);
    }

    /** `_help`'s listing: repeatedly takes the least name not yet listed. */
    method Help() returns (entries: seq<HelpEntry>)
      ensures entries == Listing(registry)
    {
      var names: seq<string> := [];
      var remaining := registry.Keys;
      while remaining != {}
        invariant remaining <= registry.Keys
        invariant Text.StrictlySorted(names)
        invariant forall x :: x in names <==> x in registry && x !in remaining
        invariant forall x, y :: x in names && y in remaining ==> Text.StrLess(x, y)
        decreases remaining
      {
        Text.LeastExists(remaining);
        var least :| Text.IsLeast(least, remaining);
        names := names + [least];
        remaining := remaining - {least};
      }
      entries := [];
      var i := 0;
      while i < |names|
        invariant 0 <= i <= |names|
        invariant |entries| == i
        invariant forall k :: 0 <= k < i ==>
                    entries[k] == HelpEntry(names[k], registry[names[k]].description)
      {
        entries := entries + [HelpEntry(names[i], registry[names[i]].description)];
        i := i + 1;
      }
      ListingIsDeterminedByNames(registry, names, entries);
    }

    /** `_stop`. */
    method Stop()
      modifies this
      ensures Snapshot() == StopF(old(Snapshot()))
    {
      if state == Stopped {
        out := out + [AlreadyStopped];
        return;
      }
      state := Stopped;
      if exitHook.Some? {
        var hook := exitHook.value;
        out := out + [ExitHookCalled(hook.name)];
        if hook.raises {
          out := out + [ExitHookError(hook.name)];
        }
      }
    }

    /** `_execute`. */
    method Execute(name: string, args: seq<string>)
      modifies this
      ensures Snapshot() == ExecuteF(old(Snapshot()), name, args)
    {
      if name !in registry {
        out := out + [UnknownCommand(name)];
        return;
      }
      match registry[name].func
      case HelpHandler =>
        if args != [] {
          out := out + [ArgumentError(name)];
        } else {
          var entries := Help();
          out := out + [HelpListing(entries)];
        }
      case StopHandler =>
        if args != [] {
          out := out + [ArgumentError(name)];
        } else {
          Stop();
        }
      case UserHandler(fn) =>
        if |args| != fn.arity {
          out := out + [ArgumentError(name)];
        } else {
          out := out + [HandlerCalled(fn.name, args)];
          match fn.outcome
          case Returns =>
          case RaisesTypeError => out := out + [ArgumentError(name)];
          case RaisesOther => out := out + [CommandError(name)];
        }
    }

    /** `run`, reading its input from `events`. */
    method Run(events: seq<InputEvent>)
      modifies this
      ensures Snapshot() == RunF(old(Snapshot()), intro, events)
    {
      if state == Running {
        out := out + [AlreadyRunning];
        return;
      }
      state := Running;
      out := out + [Intro(intro)];
      var i := 0;
      while state == Running && i < |events|
        invariant 0 <= i <= |events|
        invariant LoopF(Snapshot(), events[i..]) == RunF(old(Snapshot()), intro, events)
        decreases |events| - i
      {
        ghost var before := Snapshot();
        var ev := events[i];
        assert events[i..][0] == ev && events[i..][1..] == events[i + 1..];
        i := i + 1;
        match ev
        case Line(tokens) =>
          if tokens == [] {
            out := out + [UnexpectedError];
          } else {
            Execute(Text.Lower(tokens[0]), tokens[1..]);
          }
        case QuoteError =>
          out := out + [SyntaxError];
        case Interrupt =>
          Stop();
          assert Snapshot() == LoopF(before, events[i - 1..]);
          break;
        case EndOfInput =>
          Stop();
          assert Snapshot() == LoopF(before, events[i - 1..]);
          break;
      }
    }
  }

  /** The table `Help` builds from the sorted names is `Listing`. */
  lemma ListingIsDeterminedByNames(registry: map<string, Command>, names: seq<string>, entries: seq<HelpEntry>)
    requires Text.StrictlySorted(names)
    requires forall x :: x in names <==> x in registry
    requires |entries| == |names|
    requires forall k :: 0 <= k < |names| ==>
               entries[k] == HelpEntry(names[k], registry[names[k]].description)
    ensures entries == Listing(registry)
  {
    var sorted := Text.SortedNames(registry.Keys);
    Text.SortedUnique(names, sorted);
  }
}
