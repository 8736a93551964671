/**
 The interactive shell (`ContainerOSMVP` in dockevos/__main__.py, and its
 older copy in container-os.py): the command map with its built-in table, the
 `_execute_command` step, the plugin loader that records a plugin only after
 its `register` returns, reload, and the read-eval loop.

 Plugin code is not run: a plugin unit is data that says which registry
 changes its `register` and `unregister` make and after how many of them they
 raise. Command handlers, the outcome of the I/O built-ins and subscriber
 faults come from an environment.
 */
module Shell {
  import opened Common
  import EventBus
  import OrderedDict
  import UsageTracker

  /** The two copies of the shell; they differ only in the `listen` built-in. */
  datatype Edition = DockevOS | ContainerOS

  datatype Builtin = Help | Exit | Ps | Start | Stop | Info | Speak | Listen | Plugins | Stats | Reload

  /** A value of the command map: a built-in method or an opaque plugin callable. */
  datatype Handler = BuiltinCmd(b: Builtin) | PluginCmd(id: nat)

  /** An event-bus subscriber: the shell's own usage-tracking handler or an opaque plugin callable. */
  datatype Subscriber = TrackerSub | PluginSub(id: nat)

  /** One registry change a plugin's `register` or `unregister` makes through the shell it is given. */
  datatype Action =
    | RegisterCmd(name: string, handler: nat)
    | UnregisterCmd(name: string)
    | SubscribeTo(kind: string, subscriber: nat)

  /** The function raises `error` after performing its first `after` actions. */
  datatype Fault = Fault(after: nat, error: Exception)

  /** The body of a `register` or `unregister` function. */
  datatype Code = Code(actions: seq<Action>, fault: Option<Fault>)

  /**
   A plugin file: its stem, whether executing the module raises, and its
   `register`/`unregister` functions when it defines them.
   */
  datatype Unit = Unit(name: string, importError: Option<Exception>, register: Option<Code>, unregister: Option<Code>)

  /** What the shell prints, without the exact wording. */
  datatype Message =
    | Registered(name: string)
    | Unregistered(name: string)
    | EventHandlerError(kind: string)
    | AliasHint(cmd: string)
    | Printed(value: Val)
    | CommandError(error: Exception)
    | UnknownCommand(name: string)
    | MissingRegister(plugin: string)
    | LoadError(plugin: string, error: Exception)
    | Goodbye
    | LoopError(error: Exception)

  /**
   The world outside the model: what a plugin command returns or raises for
   given arguments, what the I/O built-ins (docker, voice, system, help and
   statistics text) return, whether a plugin subscriber raises on an event
   type, and the plugin files `glob("*.py")` yields, in that order.
   */
  datatype Env = Env(
    run: (nat, seq<string>) -> Outcome,
    builtin: (Builtin, seq<string>) -> Outcome,
    subFails: (nat, string) -> bool,
    dir: seq<Unit>)

  datatype Shell = Shell(
    commands: map<string, Handler>,
    bus: EventBus.Bus<Subscriber>,
    plugins: OrderedDict.Dict<Unit>,
    tracker: UsageTracker.Tracker,
    running: bool,
    out: seq<Message>)

  const CommandExecuted: string := "command.executed"
  const PluginLoaded: string := "plugin.loaded"
  const PluginUnloaded: string := "plugin.unloaded"

  /** What `_cmd_exit` returns. */
  const GoodbyeText: string := "Goodbye!"

  /** What `_cmd_reload_plugins` returns after loading `n` plugins. */
  function ReloadText(n: nat): string
  {
    "Reloaded " + NatToString(n) + " plugins"
  }

  // ---------------------------------------------------------------------------
  // Construction and invariant
  // ---------------------------------------------------------------------------

  /** The keys of `_register_builtin_commands` in dockevos/__main__.py, in source order. */
  const DockevOSNames: seq<string> :=
    ["help", "exit", "quit", "ps", "containers", "start", "stop", "info", "status",
     "speak", "listen", "voice", "plugins", "stats", "reload"]

  const DockevOSTargets: seq<Builtin> :=
    [Help, Exit, Exit, Ps, Ps, Start, Stop, Info, Info, Speak, Listen, Speak, Plugins, Stats, Reload]

  /** The keys of `_register_builtin_commands` in container-os.py, in source order. */
  const ContainerOSNames: seq<string> :=
    ["help", "exit", "quit", "ps", "containers", "start", "stop", "info", "status",
     "speak", "voice", "plugins", "stats", "reload"]

  const ContainerOSTargets: seq<Builtin> :=
    [Help, Exit, Exit, Ps, Ps, Start, Stop, Info, Info, Speak, Speak, Plugins, Stats, Reload]

  function BuiltinNames(ed: Edition): seq<string>
  {
    if ed == DockevOS then DockevOSNames else ContainerOSNames
  }

  /** The handler each of those keys is bound to. */
  function BuiltinTargets(ed: Edition): (bs: seq<Builtin>)
    ensures |bs| == |BuiltinNames(ed)|
  {
    if ed == DockevOS then DockevOSTargets else ContainerOSTargets
  }

  /** A dict display: later pairs win, as in Python. */
  function TableOf(ns: seq<string>, bs: seq<Builtin>): (m: map<string, Handler>)
    requires |ns| == |bs|
    ensures forall k :: k in m <==> k in ns
  {
    if ns == [] then map[]
    else TableOf(ns[..|ns| - 1], bs[..|ns| - 1])[ns[|ns| - 1] := BuiltinCmd(bs[|ns| - 1])]
  }

  /** With distinct keys, a dict display has one entry per pair. */
  lemma {:induction false} TableOfSize(ns: seq<string>, bs: seq<Builtin>)
    requires |ns| == |bs| && Distinct(ns)
    ensures |TableOf(ns, bs)| == |ns|
  {
    if ns != [] {
      TableOfSize(ns[..|ns| - 1], bs[..|ns| - 1]);
      assert ns[|ns| - 1] !in ns[..|ns| - 1];
    }
  }

  /** With distinct keys, each key maps to its own pair's value. */
  lemma {:induction false} TableOfLookup(ns: seq<string>, bs: seq<Builtin>, i: nat)
    requires |ns| == |bs| && Distinct(ns) && i < |ns|
    ensures TableOf(ns, bs)[ns[i]] == BuiltinCmd(bs[i])
  {
    if i < |ns| - 1 {
      TableOfLookup(ns[..|ns| - 1], bs[..|ns| - 1], i);
    }
  }

  /** A character of `s`, or a blank past its end. */
  function CharAt(s: string, k: nat): char
  {
    if k < |s| then s[k] else ' '
  }

  lemma BuiltinNamesDistinct(ed: Edition)
    ensures Distinct(BuiltinNames(ed))
  {
    var ns := BuiltinNames(ed);
    forall i, j | 0 <= i < j < |ns| ensures ns[i] != ns[j] {
      assert |ns[i]| != |ns[j]| || CharAt(ns[i], 0) != CharAt(ns[j], 0)
          || CharAt(ns[i], 1) != CharAt(ns[j], 1) || CharAt(ns[i], 3) != CharAt(ns[j], 3);
    }
  }

  /**
   The tracking handler is subscribed to `command.executed` exactly once and
   to nothing else; plugins only ever subscribe their own callables.
   */
  ghost predicate TrackerPlacement(b: EventBus.Bus<Subscriber>)
  {
    && (forall k :: k != CommandExecuted ==> TrackerSub !in EventBus.SubscribersOf(b, k))
    && multiset(EventBus.SubscribersOf(b, CommandExecuted))[TrackerSub] == 1
  }

  /** A plugin record is filed under its own stem. */
  ghost predicate RecordsNamed(d: OrderedDict.Dict<Unit>)
  {
    forall k :: k in d.vals ==> d.vals[k].name == k
  }

  ghost predicate Valid(sh: Shell)
  {
    && EventBus.Valid(sh.bus)
    && TrackerPlacement(sh.bus)
    && OrderedDict.Valid(sh.plugins)
    && RecordsNamed(sh.plugins)
  }

  /** `ContainerOSMVP()` before `start`: the built-ins, and the tracker subscribed to `command.executed`. */
  function New(ed: Edition): (sh: Shell)
    ensures Valid(sh)
    ensures sh.commands == TableOf(BuiltinNames(ed), BuiltinTargets(ed))
    ensures sh.running && sh.out == [] && sh.plugins.keys == []
    ensures sh.tracker == UsageTracker.Empty()
  {
    var bus := EventBus.Subscribe(EventBus.New(), CommandExecuted, TrackerSub);
    Shell(TableOf(BuiltinNames(ed), BuiltinTargets(ed)), bus, OrderedDict.Empty(),
          UsageTracker.Empty(), true, [])
  }

  /**
   Construction installs 14 names in container-os.py and 15 in
   dockevos/__main__.py, and each alias runs the same handler as its partner.
   */
  lemma BuiltinCount(ed: Edition)
    ensures |New(ed).commands| == if ed == DockevOS then 15 else 14
    ensures "listen" in New(ed).commands <==> ed == DockevOS
    ensures forall i :: 0 <= i < |BuiltinNames(ed)| ==> BuiltinNames(ed)[i] in New(ed).commands
    ensures AliasesShared(New(ed).commands)
  {
    var ns := BuiltinNames(ed);
    var bs := BuiltinTargets(ed);
    BuiltinNamesDistinct(ed);
    TableFacts(ns, bs);
    ListenOnlyInNewer(ed);
    assert |ns| == if ed == DockevOS then 15 else 14;
    BuiltinAliases(ed);
  }

  /** Only the newer copy lists `listen`. */
  lemma ListenOnlyInNewer(ed: Edition)
    ensures "listen" in BuiltinNames(ed) <==> ed == DockevOS
  {
    if ed == DockevOS {
      assert BuiltinNames(ed)[10] == "listen";
    } else {
      ListenAbsent();
    }
  }

  lemma BuiltinAliases(ed: Edition)
    ensures AliasesShared(New(ed).commands)
  {
    var ns := BuiltinNames(ed);
    var bs := BuiltinTargets(ed);
    BuiltinNamesDistinct(ed);
    TableFacts(ns, bs);
    var v := if ed == DockevOS then 11 else 10;
    AliasPositions(ed);
    AliasesAt(New(ed).commands, ns, bs, v);
  }

  lemma AliasPositions(ed: Edition)
    ensures var ns := BuiltinNames(ed); var bs := BuiltinTargets(ed);
            var v := if ed == DockevOS then 11 else 10;
            && ns[1] == "exit" && ns[2] == "quit" && ns[3] == "ps" && ns[4] == "containers"
            && ns[7] == "info" && ns[8] == "status" && ns[9] == "speak" && ns[v] == "voice"
            && bs[1] == Exit && bs[2] == Exit && bs[3] == Ps && bs[4] == Ps
            && bs[7] == Info && bs[8] == Info && bs[9] == Speak && bs[v] == Speak
  {
  }

  /** quit/exit, containers/ps, status/info and voice/speak run one handler each. */
  predicate AliasesShared(cmds: map<string, Handler>)
  {
    && "exit" in cmds && "quit" in cmds && cmds["quit"] == cmds["exit"] == BuiltinCmd(Exit)
    && "ps" in cmds && "containers" in cmds && cmds["containers"] == cmds["ps"] == BuiltinCmd(Ps)
    && "info" in cmds && "status" in cmds && cmds["status"] == cmds["info"] == BuiltinCmd(Info)
    && "speak" in cmds && "voice" in cmds && cmds["voice"] == cmds["speak"] == BuiltinCmd(Speak)
  }

  lemma AliasesAt(cmds: map<string, Handler>, ns: seq<string>, bs: seq<Builtin>, v: nat)
    requires |ns| == |bs| && 10 <= v < |ns|
    requires forall i :: 0 <= i < |ns| ==> ns[i] in cmds && cmds[ns[i]] == BuiltinCmd(bs[i])
    requires ns[1] == "exit" && ns[2] == "quit" && ns[3] == "ps" && ns[4] == "containers"
    requires ns[7] == "info" && ns[8] == "status" && ns[9] == "speak" && ns[v] == "voice"
    requires bs[1] == Exit && bs[2] == Exit && bs[3] == Ps && bs[4] == Ps
    requires bs[7] == Info && bs[8] == Info && bs[9] == Speak && bs[v] == Speak
    ensures AliasesShared(cmds)
  {
    assert ns[1] in cmds && ns[2] in cmds && ns[3] in cmds && ns[4] in cmds;
    assert ns[7] in cmds && ns[8] in cmds && ns[9] in cmds && ns[v] in cmds;
  }

  /** `listen` is not among the older copy's built-ins. */
  lemma ListenAbsent()
    ensures "listen" !in ContainerOSNames
  {
    var ns := ContainerOSNames;
    forall i | 0 <= i < |ns| ensures ns[i] != "listen" {
      assert |ns[i]| != 6 || CharAt(ns[i], 0) != 'l';
    }
  }

  /** With distinct keys, a dict display has one entry per pair and each key maps to its pair's value. */
  lemma TableFacts(ns: seq<string>, bs: seq<Builtin>)
    requires |ns| == |bs| && Distinct(ns)
    ensures |TableOf(ns, bs)| == |ns|
    ensures forall i :: 0 <= i < |ns| ==> ns[i] in TableOf(ns, bs) && TableOf(ns, bs)[ns[i]] == BuiltinCmd(bs[i])
  {
    TableOfSize(ns, bs);
    forall i | 0 <= i < |ns| ensures ns[i] in TableOf(ns, bs) && TableOf(ns, bs)[ns[i]] == BuiltinCmd(bs[i]) {
      TableOfLookup(ns, bs, i);
    }
  }

  // ---------------------------------------------------------------------------
  // Events
  // ---------------------------------------------------------------------------

  /**
   `event.data.get('command', '').split()[0]`: the first token, or `None`
   where that expression raises (no tokens, or a value that is not a string).
   */
  function CommandToken(data: map<string, Val>): (r: Option<string>)
    ensures r.Some? <==> "command" in data && data["command"].StrVal? && Split(data["command"].s) != []
    ensures r.Some? ==> r.value == Split(data["command"].s)[0]
  {
    if "command" in data then
      match data["command"]
      case StrVal(s) => var parts := Split(s); if parts == [] then None else Some(parts[0])
      case _ => None
    else None
  }

  /** One subscriber's call; a raising subscriber only prints an error. */
  function NotifyOne(env: Env, sh: Shell, s: Subscriber, e: EventBus.Event): (r: Shell)
    ensures r.commands == sh.commands && r.bus == sh.bus && r.plugins == sh.plugins
    ensures r.running == sh.running
    ensures s != TrackerSub ==> r.tracker == sh.tracker
    ensures |sh.out| <= |r.out| && r.out[..|sh.out|] == sh.out
  {
    match s
    case PluginSub(id) =>
      if env.subFails(id, e.kind) then sh.(out := sh.out + [EventHandlerError(e.kind)]) else sh
    case TrackerSub =>
      match CommandToken(e.data)
      case None => sh.(out := sh.out + [EventHandlerError(e.kind)])
      case Some(tok) =>
        var (t, hint) := UsageTracker.Track(sh.tracker, tok);
        sh.(tracker := t, out := sh.out + (if hint then [AliasHint(tok)] else []))
  }

  /** The delivery loop of `EventBus.emit`: every subscriber, in order, faults caught. */
  function Notify(env: Env, sh: Shell, subs: seq<Subscriber>, e: EventBus.Event): (r: Shell)
    ensures r.commands == sh.commands && r.bus == sh.bus && r.plugins == sh.plugins
    ensures r.running == sh.running
    ensures TrackerSub !in subs ==> r.tracker == sh.tracker
    ensures |sh.out| <= |r.out| && r.out[..|sh.out|] == sh.out
    decreases |subs|
  {
    if subs == [] then sh
    else
      var r := Notify(env, NotifyOne(env, sh, subs[0], e), subs[1..], e);
      assert TrackerSub !in subs ==> TrackerSub !in subs[1..];
      r
  }

  /** The newest event in the history is `e`. */
  predicate LastEvent(h: seq<EventBus.Event>, e: EventBus.Event)
  {
    |h| > 0 && h[|h| - 1] == e
  }

  /** `emit(kind, data)`: record the event, then notify that type's subscribers. */
  function ShellEmit(env: Env, sh: Shell, kind: string, data: map<string, Val>): (r: Shell)
    requires Valid(sh)
    ensures Valid(r)
    ensures r.bus.history == Newest(sh.bus.history + [EventBus.Event(kind, data)], EventBus.HistoryLimit)
    ensures LastEvent(r.bus.history, EventBus.Event(kind, data))
    ensures r.bus.subscribers == sh.bus.subscribers
    ensures r.commands == sh.commands && r.plugins == sh.plugins && r.running == sh.running
    ensures kind != CommandExecuted ==> r.tracker == sh.tracker
    ensures |sh.out| <= |r.out| && r.out[..|sh.out|] == sh.out
  {
    var e := EventBus.Event(kind, data);
    var (b, subs) := EventBus.Emit(sh.bus, e);
    assert forall k :: EventBus.SubscribersOf(b, k) == EventBus.SubscribersOf(sh.bus, k);
    Notify(env, sh.(bus := b), subs, e)
  }

  /**
   Notifying a `command.executed` event adds to the first token's count once
   per tracking subscriber in the list and leaves every other count alone.
   */
  lemma {:induction false} NotifyCounts(env: Env, sh: Shell, subs: seq<Subscriber>, e: EventBus.Event, c: string)
    requires CommandToken(e.data).Some?
    ensures UsageTracker.CountOf(Notify(env, sh, subs, e).tracker, c)
            == UsageTracker.CountOf(sh.tracker, c)
               + (if c == CommandToken(e.data).value then multiset(subs)[TrackerSub] else 0)
    decreases |subs|
  {
    if subs != [] {
      var s1 := NotifyOne(env, sh, subs[0], e);
      NotifyCounts(env, s1, subs[1..], e, c);
      NotifyOneCounts(env, sh, subs[0], e, c);
      TrackerOccurrences(subs);
    }
  }

  /** Occurrences of the tracker in a non-empty subscriber list, head first. */
  lemma TrackerOccurrences(subs: seq<Subscriber>)
    requires subs != []
    ensures multiset(subs)[TrackerSub] == (if subs[0] == TrackerSub then 1 else 0) + multiset(subs[1..])[TrackerSub]
  {
    assert subs == [subs[0]] + subs[1..];
  }

  /** One subscriber adds to the token's count exactly when it is the tracker. */
  lemma NotifyOneCounts(env: Env, sh: Shell, s: Subscriber, e: EventBus.Event, c: string)
    requires CommandToken(e.data).Some?
    ensures UsageTracker.CountOf(NotifyOne(env, sh, s, e).tracker, c)
            == UsageTracker.CountOf(sh.tracker, c) + (if s == TrackerSub && c == CommandToken(e.data).value then 1 else 0)
  {
  }

  /**
   The shell's emit of `command.executed` for a line with at least one token
   counts that token exactly once, whoever else is subscribed.
   */
  lemma EmitCountsOnce(env: Env, sh: Shell, line: string, args: seq<string>, c: string)
    requires Valid(sh) && Split(line) != []
    ensures UsageTracker.CountOf(ShellEmit(env, sh, CommandExecuted, ExecutedData(line, args)).tracker, c)
            == UsageTracker.CountOf(sh.tracker, c) + (if c == Split(line)[0] then 1 else 0)
  {
    var e := EventBus.Event(CommandExecuted, ExecutedData(line, args));
    var (b, subs) := EventBus.Emit(sh.bus, e);
    NotifyCounts(env, sh.(bus := b), subs, e, c);
  }

  // ---------------------------------------------------------------------------
  // The command map
  // ---------------------------------------------------------------------------

  /** `register_command(name, h)`: last writer wins. */
  function RegisterCommand(sh: Shell, name: string, h: Handler): (r: Shell)
    ensures name in r.commands && r.commands[name] == h
    ensures forall n :: n != name ==> (n in r.commands <==> n in sh.commands)
    ensures forall n :: n != name && n in sh.commands ==> r.commands[n] == sh.commands[n]
    ensures r.out == sh.out + [Registered(name)]
    ensures r.bus == sh.bus && r.plugins == sh.plugins && r.tracker == sh.tracker && r.running == sh.running
  {
    sh.(commands := sh.commands[name := h], out := sh.out + [Registered(name)])
  }

  /** `unregister_command(name)`: remove if present, otherwise do nothing at all. */
  function UnregisterCommand(sh: Shell, name: string): (r: Shell)
    ensures name !in r.commands
    ensures forall n :: n != name ==> (n in r.commands <==> n in sh.commands)
    ensures forall n :: n != name && n in sh.commands ==> r.commands[n] == sh.commands[n]
    ensures name !in sh.commands ==> r == sh
    ensures name in sh.commands ==> r.out == sh.out + [Unregistered(name)]
    ensures r.bus == sh.bus && r.plugins == sh.plugins && r.tracker == sh.tracker && r.running == sh.running
  {
    if name in sh.commands then
      sh.(commands := sh.commands - {name}, out := sh.out + [Unregistered(name)])
    else sh
  }

  /** Registering a name that was free and then unregistering it restores the command map. */
  lemma RegisterUnregisterRestores(sh: Shell, name: string, h: Handler)
    requires name !in sh.commands
    ensures UnregisterCommand(RegisterCommand(sh, name, h), name).commands == sh.commands
  {
  }

  /** Registering over a taken name and then unregistering it loses the name entirely. */
  lemma RegisterUnregisterLoses(sh: Shell, name: string, h: Handler)
    requires name in sh.commands
    ensures name !in UnregisterCommand(RegisterCommand(sh, name, h), name).commands
    ensures UnregisterCommand(RegisterCommand(sh, name, h), name).commands == sh.commands - {name}
  {
  }

  // ---------------------------------------------------------------------------
  // Running plugin code
  // ---------------------------------------------------------------------------

  function ApplyAction(sh: Shell, a: Action): (r: Shell)
    requires Valid(sh)
    ensures Valid(r)
    ensures r.bus.history == sh.bus.history && r.plugins == sh.plugins
    ensures r.tracker == sh.tracker && r.running == sh.running
  {
    match a
    case RegisterCmd(name, h) => RegisterCommand(sh, name, PluginCmd(h))
    case UnregisterCmd(name) => UnregisterCommand(sh, name)
    case SubscribeTo(kind, id) => sh.(bus := EventBus.Subscribe(sh.bus, kind, PluginSub(id)))
  }

  /** The actions in order; each sees the registry the previous ones left. */
  function RunActions(sh: Shell, acts: seq<Action>): (r: Shell)
    requires Valid(sh)
    ensures Valid(r)
    ensures r.bus.history == sh.bus.history && r.plugins == sh.plugins
    ensures r.tracker == sh.tracker && r.running == sh.running
    decreases |acts|
  {
    if acts == [] then sh else RunActions(ApplyAction(sh, acts[0]), acts[1..])
  }

  /** How many actions run before the code raises, or all of them. */
  function Performed(c: Code): (k: nat)
    ensures k <= |c.actions|
    ensures c.fault.None? ==> k == |c.actions|
  {
    match c.fault
    case None => |c.actions|
    case Some(f) => if f.after < |c.actions| then f.after else |c.actions|
  }

  /** Whether an action registers or unregisters the command `n`. */
  predicate NamesCommand(a: Action, n: string)
  {
    (a.RegisterCmd? || a.UnregisterCmd?) && a.name == n
  }

  /**
   What the command `n` is bound to after `acts` run on a map where it was
   bound to `before`: the last action that names `n` decides, and with no
   such action the binding is unchanged.
   */
  function BindingAfter(before: Option<Handler>, acts: seq<Action>, n: string): Option<Handler>
    decreases |acts|
  {
    if acts == [] then before
    else
      var a := acts[|acts| - 1];
      if a.RegisterCmd? && a.name == n then Some(PluginCmd(a.handler))
      else if a.UnregisterCmd? && a.name == n then None
      else BindingAfter(before, acts[..|acts| - 1], n)
  }

  /** Running one more action is applying it to what the earlier ones left. */
  lemma {:induction false} RunActionsSnoc(sh: Shell, acts: seq<Action>, a: Action)
    requires Valid(sh)
    ensures RunActions(sh, acts + [a]) == ApplyAction(RunActions(sh, acts), a)
    decreases |acts|
  {
    if acts == [] {
      assert acts + [a] == [a];
    } else {
      assert (acts + [a])[0] == acts[0] && (acts + [a])[1..] == acts[1..] + [a];
      RunActionsSnoc(ApplyAction(sh, acts[0]), acts[1..], a);
    }
  }

  /** Running actions binds each command as the last action naming it says. */
  lemma {:induction false} RunActionsBinding(sh: Shell, acts: seq<Action>, n: string)
    requires Valid(sh)
    ensures Lookup(RunActions(sh, acts), n) == BindingAfter(Lookup(sh, n), acts, n)
    decreases |acts|
  {
    if acts != [] {
      var init := acts[..|acts| - 1];
      var a := acts[|acts| - 1];
      assert acts == init + [a];
      RunActionsSnoc(sh, init, a);
      RunActionsBinding(sh, init, n);
      ApplyActionBinding(RunActions(sh, init), a, n);
    }
  }

  /** One action rebinds the command it names and leaves every other binding alone. */
  lemma ApplyActionBinding(sh: Shell, a: Action, n: string)
    requires Valid(sh)
    ensures Lookup(ApplyAction(sh, a), n) ==
              if a.RegisterCmd? && a.name == n then Some(PluginCmd(a.handler))
              else if a.UnregisterCmd? && a.name == n then None
              else Lookup(sh, n)
  {
  }

  /** A register action with no later action naming its command decides the binding. */
  lemma {:induction false} BindingAfterLastRegister(before: Option<Handler>, acts: seq<Action>, n: string, i: nat, h: nat)
    requires i < |acts| && acts[i] == RegisterCmd(n, h)
    requires forall j :: i < j < |acts| ==> !NamesCommand(acts[j], n)
    ensures BindingAfter(before, acts, n) == Some(PluginCmd(h))
    decreases |acts|
  {
    if i < |acts| - 1 {
      assert !NamesCommand(acts[|acts| - 1], n);
      BindingAfterLastRegister(before, acts[..|acts| - 1], n, i, h);
    }
  }

  /**
   Call a `register` or `unregister`: the actions before the fault point take
   effect and stay in effect, so every command ends bound as the last of
   those actions naming it left it; the exception, if any, is the second
   component.
   */
  function Call(sh: Shell, c: Code): (r: (Shell, Option<Exception>))
    requires Valid(sh)
    ensures Valid(r.0)
    ensures r.0 == RunActions(sh, c.actions[..Performed(c)])
    ensures forall n :: Lookup(r.0, n) == BindingAfter(Lookup(sh, n), c.actions[..Performed(c)], n)
    ensures r.1.Some? <==> c.fault.Some?
    ensures c.fault.Some? ==> r.1 == Some(c.fault.value.error)
  {
    var s1 := RunActions(sh, c.actions[..Performed(c)]);
    assert forall n :: Lookup(s1, n) == BindingAfter(Lookup(sh, n), c.actions[..Performed(c)], n) by {
      forall n ensures Lookup(s1, n) == BindingAfter(Lookup(sh, n), c.actions[..Performed(c)], n) {
        RunActionsBinding(sh, c.actions[..Performed(c)], n);
      }
    }
    (s1, match c.fault case None => None case Some(f) => Some(f.error))
  }

  /**
   A command that `register` registered before its fault point, and that no
   later action up to the fault re-registers or unregisters, is still bound
   afterwards: nothing is rolled back.
   */
  lemma RegisteredBeforeFaultStays(sh: Shell, c: Code, i: nat, n: string, h: nat)
    requires Valid(sh)
    requires i < Performed(c) && c.actions[i] == RegisterCmd(n, h)
    requires forall j :: i < j < Performed(c) ==> !NamesCommand(c.actions[j], n)
    ensures n in Call(sh, c).0.commands && Call(sh, c).0.commands[n] == PluginCmd(h)
  {
    var acts := c.actions[..Performed(c)];
    BindingAfterLastRegister(Lookup(sh, n), acts, n, i, h);
    assert Lookup(Call(sh, c).0, n) == Some(PluginCmd(h));
  }

  // ---------------------------------------------------------------------------
  // The plugin manager
  // ---------------------------------------------------------------------------

  /**
   `unload_plugin(name)`: nothing for an unknown name; otherwise call
   `unregister` if the module has one, drop the record and emit
   `plugin.unloaded`. An exception from `unregister` propagates, leaving the
   record in place.
   */
  function UnloadPlugin(env: Env, sh: Shell, name: string): (r: (Shell, Option<Exception>))
    requires Valid(sh)
    ensures Valid(r.0)
    ensures name !in sh.plugins.vals ==> r == (sh, None)
    ensures r.1.None? ==> name !in r.0.plugins.vals && r.0.plugins.keys == Filter(sh.plugins.keys, k => k != name)
    ensures r.1.None? ==> forall k :: k in r.0.plugins.vals ==> r.0.plugins.vals[k] == sh.plugins.vals[k]
    ensures r.1.Some? ==> r.0.plugins == sh.plugins
    ensures forall k :: k != name ==> (k in r.0.plugins.vals <==> k in sh.plugins.vals)
    ensures forall k :: k != name && k in sh.plugins.vals ==> r.0.plugins.vals[k] == sh.plugins.vals[k]
    ensures name in sh.plugins.vals && r.1.None? ==>
              LastEvent(r.0.bus.history, EventBus.Event(PluginUnloaded, map["name" := StrVal(name)]))
    ensures name in sh.plugins.vals && sh.plugins.vals[name].unregister.None? ==>
              r.1.None? && r.0.commands == sh.commands
    ensures name in sh.plugins.vals && sh.plugins.vals[name].unregister.Some? ==>
              r.0.commands == Call(sh, sh.plugins.vals[name].unregister.value).0.commands
    ensures r.0.tracker == sh.tracker && r.0.running == sh.running
  {
    if name !in sh.plugins.vals then
      FilterKeepsAll(sh.plugins.keys, k => k != name);
      (sh, None)
    else
      var u := sh.plugins.vals[name];
      var (s1, err) := if u.unregister.Some? then Call(sh, u.unregister.value) else (sh, None);
      if err.Some? then (s1, err)
      else
        assert Filter(sh.plugins.keys, k => k != name) == OrderedDict.Remove(s1.plugins, name).keys;
        var s2 := s1.(plugins := OrderedDict.Remove(s1.plugins, name));
        (ShellEmit(env, s2, PluginUnloaded, map["name" := StrVal(name)]), None)
  }

  /**
   `load_plugin(path)`: unload a plugin of the same stem first; then execute
   the module, and record it and emit `plugin.loaded` only if it has a
   `register` that returns. Every failure prints and yields `false`; commands
   registered before a fault are not rolled back.
   */
  function LoadPlugin(env: Env, sh: Shell, u: Unit): (r: (Shell, bool))
    requires Valid(sh)
    ensures Valid(r.0)
    ensures r.1 <==> UnloadsCleanly(sh, u.name) && Loads(u)
    ensures r.1 ==> u.name in r.0.plugins.vals && r.0.plugins.vals[u.name] == u
    ensures r.1 ==> LastEvent(r.0.bus.history, EventBus.Event(PluginLoaded, map["name" := StrVal(u.name)]))
    ensures !r.1 && !UnloadsCleanly(sh, u.name) ==> r.0.plugins == sh.plugins
    ensures !r.1 && UnloadsCleanly(sh, u.name) ==> u.name !in r.0.plugins.vals
    ensures r.1 ==> r.0.commands == Call(UnloadPlugin(env, sh, u.name).0, u.register.value).0.commands
    ensures r.1 && u.name !in sh.plugins.vals ==> r.0.commands == Call(sh, u.register.value).0.commands
    ensures forall k :: k != u.name ==> (k in r.0.plugins.vals <==> k in sh.plugins.vals)
    ensures forall k :: k != u.name && k in sh.plugins.vals ==> r.0.plugins.vals[k] == sh.plugins.vals[k]
    ensures r.0.tracker == sh.tracker && r.0.running == sh.running
  {
    var (s1, err) := UnloadPlugin(env, sh, u.name);
    if err.Some? then (s1.(out := s1.out + [LoadError(u.name, err.value)]), false)
    else LoadFresh(env, s1, u)
  }

  /** Unloading the plugin of that stem, if one is loaded, does not raise. */
  predicate UnloadsCleanly(sh: Shell, name: string)
  {
    (name in sh.plugins.vals && sh.plugins.vals[name].unregister.Some?)
      ==> sh.plugins.vals[name].unregister.value.fault.None?
  }

  /** The module executes and has a `register` that returns normally. */
  predicate Loads(u: Unit)
  {
    u.importError.None? && u.register.Some? && u.register.value.fault.None?
  }

  /** The rest of `load_plugin` once no plugin of that stem is loaded. */
  function LoadFresh(env: Env, sh: Shell, u: Unit): (r: (Shell, bool))
    requires Valid(sh)
    ensures Valid(r.0)
    ensures r.1 <==> Loads(u)
    ensures r.1 ==> u.name in r.0.plugins.vals && r.0.plugins.vals[u.name] == u
    ensures r.1 ==> LastEvent(r.0.bus.history, EventBus.Event(PluginLoaded, map["name" := StrVal(u.name)]))
    ensures !r.1 ==> r.0.plugins == sh.plugins
    ensures forall k :: k in r.0.plugins.vals && k != u.name ==> k in sh.plugins.vals && r.0.plugins.vals[k] == sh.plugins.vals[k]
    ensures r.1 ==> r.0.commands == Call(sh, u.register.value).0.commands
    ensures r.0.tracker == sh.tracker && r.0.running == sh.running
  {
    if u.importError.Some? then (sh.(out := sh.out + [LoadError(u.name, u.importError.value)]), false)
    else
      match u.register
      case None => (sh.(out := sh.out + [MissingRegister(u.name)]), false)
      case Some(code) =>
        var (s2, err2) := Call(sh, code);
        if err2.Some? then (s2.(out := s2.out + [LoadError(u.name, err2.value)]), false)
        else (Record(env, s2, u), true)
  }

  /** Record a plugin whose `register` returned and announce it with `plugin.loaded`. */
  function Record(env: Env, sh: Shell, u: Unit): (r: Shell)
    requires Valid(sh)
    ensures Valid(r)
    ensures u.name in r.plugins.vals && r.plugins.vals[u.name] == u
    ensures LastEvent(r.bus.history, EventBus.Event(PluginLoaded, map["name" := StrVal(u.name)]))
    ensures forall k :: k in r.plugins.vals && k != u.name ==> k in sh.plugins.vals && r.plugins.vals[k] == sh.plugins.vals[k]
    ensures r.tracker == sh.tracker && r.running == sh.running && r.commands == sh.commands
  {
    var s1 := sh.(plugins := OrderedDict.Put(sh.plugins, u.name, u));
    ShellEmit(env, s1, PluginLoaded, map["name" := StrVal(u.name)])
  }

  /** The stems of the plugin files, in order. */
  function Stems(units: seq<Unit>): (r: seq<string>)
    ensures |r| == |units| && forall i :: 0 <= i < |units| ==> r[i] == units[i].name
  {
    if units == [] then [] else [units[0].name] + Stems(units[1..])
  }

  /**
   `load_all_plugins`: every file in directory order, whatever the earlier
   ones did. A file whose stem nothing else in the run shares, and that was
   not loaded before, ends up recorded exactly when it loads; a stem outside
   the run keeps its record.
   */
  function LoadAll(env: Env, sh: Shell, units: seq<Unit>): (r: Shell)
    requires Valid(sh)
    ensures Valid(r)
    ensures forall k :: k in r.plugins.vals ==>
              (k in sh.plugins.vals && r.plugins.vals[k] == sh.plugins.vals[k]) || r.plugins.vals[k] in units
    ensures forall k :: k !in Stems(units) ==> (k in r.plugins.vals <==> k in sh.plugins.vals)
    ensures forall k :: k !in Stems(units) && k in sh.plugins.vals ==> r.plugins.vals[k] == sh.plugins.vals[k]
    ensures Distinct(Stems(units)) ==>
              forall u :: u in units && u.name !in sh.plugins.vals ==>
                (u.name in r.plugins.vals <==> Loads(u)) && (Loads(u) ==> r.plugins.vals[u.name] == u)
    ensures r.tracker == sh.tracker && r.running == sh.running
    decreases |units|, 1
  {
    if units == [] then sh
    else
      var s1 := LoadPlugin(env, sh, units[0]).0;
      var r := LoadAll(env, s1, units[1..]);
      assert Stems(units) == [units[0].name] + Stems(units[1..]);
      assert Distinct(Stems(units)) ==>
               forall u :: u in units && u.name !in sh.plugins.vals ==>
                 (u.name in r.plugins.vals <==> Loads(u)) && (Loads(u) ==> r.plugins.vals[u.name] == u) by {
        if Distinct(Stems(units)) {
          forall u | u in units && u.name !in sh.plugins.vals
            ensures (u.name in r.plugins.vals <==> Loads(u)) && (Loads(u) ==> r.plugins.vals[u.name] == u)
          {
            LoadAllOne(env, sh, units, u);
          }
        }
      }
      assert forall k :: k in r.plugins.vals ==>
               (k in sh.plugins.vals && r.plugins.vals[k] == sh.plugins.vals[k]) || r.plugins.vals[k] in units by {
        forall k | k in r.plugins.vals
          ensures (k in sh.plugins.vals && r.plugins.vals[k] == sh.plugins.vals[k]) || r.plugins.vals[k] in units
        {
          if !(r.plugins.vals[k] in units[1..]) {
            LoadPluginRecords(env, sh, units[0], k);
          }
        }
      }
      r
  }

  /** The step of `LoadAll`'s fault isolation for one file of a run with distinct stems. */
  lemma LoadAllOne(env: Env, sh: Shell, units: seq<Unit>, u: Unit)
    requires Valid(sh) && units != [] && Distinct(Stems(units))
    requires u in units && u.name !in sh.plugins.vals
    ensures var r := LoadAll(env, LoadPlugin(env, sh, units[0]).0, units[1..]);
            (u.name in r.plugins.vals <==> Loads(u)) && (Loads(u) ==> r.plugins.vals[u.name] == u)
    decreases |units|, 0
  {
    var s1 := LoadPlugin(env, sh, units[0]).0;
    var rest := units[1..];
    assert Stems(units) == [units[0].name] + Stems(rest);
    assert Distinct(Stems(rest)) by {
      forall i, j | 0 <= i < j < |Stems(rest)| ensures Stems(rest)[i] != Stems(rest)[j] {
        assert Stems(rest)[i] == Stems(units)[i + 1] && Stems(rest)[j] == Stems(units)[j + 1];
      }
    }
    if u == units[0] {
      forall i | 0 <= i < |rest| ensures Stems(rest)[i] != u.name {
        assert Stems(units)[0] == u.name && Stems(units)[i + 1] == Stems(rest)[i];
      }
      assert u.name !in Stems(rest);
    } else {
      assert u in rest;
      var i :| 0 <= i < |rest| && rest[i] == u;
      assert Stems(units)[i + 1] == u.name && Stems(units)[0] == units[0].name;
      assert u.name != units[0].name;
      assert u.name !in s1.plugins.vals;
    }
  }

  /** After one load, a record is the old one or the unit just loaded. */
  lemma LoadPluginRecords(env: Env, sh: Shell, u: Unit, k: string)
    requires Valid(sh)
    requires k in LoadPlugin(env, sh, u).0.plugins.vals
    ensures var d := LoadPlugin(env, sh, u).0.plugins.vals;
            (k in sh.plugins.vals && d[k] == sh.plugins.vals[k]) || d[k] == u
  {
  }

  /** Unload the named plugins in order, stopping at the first `unregister` that raises. */
  function UnloadAll(env: Env, sh: Shell, names: seq<string>): (r: (Shell, Option<Exception>))
    requires Valid(sh)
    ensures Valid(r.0)
    ensures r.1.None? ==> forall n :: n in names ==> n !in r.0.plugins.vals
    ensures r.1.None? ==> forall k :: k in r.0.plugins.vals ==> k in sh.plugins.vals
    ensures r.0.tracker == sh.tracker && r.0.running == sh.running
    decreases |names|
  {
    if names == [] then (sh, None)
    else
      var (s1, err) := UnloadPlugin(env, sh, names[0]);
      if err.Some? then (s1, err)
      else
        var (s2, err2) := UnloadAll(env, s1, names[1..]);
        assert err2.None? ==> forall n :: n in names ==> n !in s2.plugins.vals by {
          if err2.None? {
            forall n | n in names ensures n !in s2.plugins.vals {
              if n != names[0] { assert n in names[1..]; }
            }
          }
        }
        (s2, err2)
  }

  /**
   `_cmd_reload_plugins`: snapshot the loaded names, unload each, then load
   the directory again; report how many plugins are loaded afterwards. A
   raising `unregister` aborts the reload and reaches the caller.
   */
  function ReloadPlugins(env: Env, sh: Shell): (r: (Shell, Outcome))
    requires Valid(sh)
    ensures Valid(r.0)
    ensures r.0.tracker == sh.tracker && r.0.running == sh.running
    ensures r.1.Returned? ==> forall k :: k in r.0.plugins.vals ==> r.0.plugins.vals[k] in env.dir
    ensures r.1.Returned? ==> r.1.value == StrVal(ReloadText(|r.0.plugins.keys|))
    ensures r.1.Returned? && Distinct(Stems(env.dir)) ==>
              forall u :: u in env.dir ==>
                (u.name in r.0.plugins.vals <==> Loads(u)) && (Loads(u) ==> r.0.plugins.vals[u.name] == u)
  {
    var (s1, err) := UnloadAll(env, sh, sh.plugins.keys);
    if err.Some? then (s1, Raised(err.value))
    else
      assert forall k :: k in sh.plugins.vals ==> k in sh.plugins.keys;
      assert forall k :: k !in s1.plugins.vals;
      var s2 := LoadAll(env, s1, env.dir);
      (s2, Returned(StrVal(ReloadText(|s2.plugins.keys|))))
  }

  /** With nothing loaded and no plugin files, reload leaves the command map as it was. */
  lemma ReloadEmptyKeepsCommands(env: Env, sh: Shell)
    requires Valid(sh) && sh.plugins.keys == [] && env.dir == []
    ensures ReloadPlugins(env, sh).0.commands == sh.commands
    ensures ReloadPlugins(env, sh).1 == Returned(StrVal(ReloadText(0)))
  {
  }

  /**
   A `register` that registers a command and then raises, with no action in
   between naming that command, leaves the plugin unrecorded but the command
   in place: nothing is rolled back, wherever the fault comes.
   */
  lemma FaultAfterRegisterKeepsCommand(env: Env, sh: Shell, u: Unit, acts: seq<Action>, k: nat, e: Exception,
                                       i: nat, n: string, h: nat)
    requires Valid(sh) && u.name !in sh.plugins.vals && u.importError.None?
    requires u.register == Some(Code(acts, Some(Fault(k, e))))
    requires i < k && i < |acts| && acts[i] == RegisterCmd(n, h)
    requires forall j :: i < j < k && j < |acts| ==> !NamesCommand(acts[j], n)
    ensures !LoadPlugin(env, sh, u).1
    ensures u.name !in LoadPlugin(env, sh, u).0.plugins.vals
    ensures n in LoadPlugin(env, sh, u).0.commands && LoadPlugin(env, sh, u).0.commands[n] == PluginCmd(h)
    ensures EndsWith(LoadPlugin(env, sh, u).0.out, LoadError(u.name, e))
  {
    RegisteredBeforeFaultStays(sh, u.register.value, i, n, h);
  }

  /** A module without `register` is reported and not recorded; the registry is untouched. */
  lemma MissingRegisterNotRecorded(env: Env, sh: Shell, u: Unit)
    requires Valid(sh) && u.name !in sh.plugins.vals && u.importError.None? && u.register.None?
    ensures LoadPlugin(env, sh, u) == (sh.(out := sh.out + [MissingRegister(u.name)]), false)
  {
  }

  // ---------------------------------------------------------------------------
  // Executing a line
  // ---------------------------------------------------------------------------

  /** The `command.executed` payload. */
  function ExecutedData(line: string, args: seq<string>): map<string, Val>
  {
    map["command" := StrVal(line), "args" := ListVal(args)]
  }

  /**
   Call a handler; only `exit` and `reload` act on the shell itself. The other
   built-ins' outcomes come from the environment, so the wake-word commands
   `listen` passes back to `_execute_command` are not dispatched again here.
   */
  function RunHandler(env: Env, sh: Shell, h: Handler, args: seq<string>): (r: (Shell, Outcome))
    requires Valid(sh)
    ensures Valid(r.0)
    ensures r.0.tracker == sh.tracker
    ensures r.0.running == (sh.running && h != BuiltinCmd(Exit))
    ensures h != BuiltinCmd(Reload) ==> r.0.bus == sh.bus && r.0.commands == sh.commands && r.0.plugins == sh.plugins
    ensures h.PluginCmd? ==> r == (sh, env.run(h.id, args))
  {
    match h
    case PluginCmd(id) => (sh, env.run(id, args))
    case BuiltinCmd(Exit) => (sh.(running := false), Returned(StrVal(GoodbyeText)))
    case BuiltinCmd(Reload) => ReloadPlugins(env, sh)
    case BuiltinCmd(b) => (sh, env.builtin(b, args))
  }

  /** The last thing printed is `m`. */
  predicate EndsWith(out: seq<Message>, m: Message)
  {
    |out| > 0 && out[|out| - 1] == m
  }

  /** How a handler's outcome is reported: faults as a command error, truthy results printed. */
  function Report(o: Outcome): (ms: seq<Message>)
    ensures o.Raised? ==> ms == [CommandError(o.error)]
    ensures o.Returned? && !Truthy(o.value) ==> ms == []
    ensures o.Returned? && Truthy(o.value) ==> ms == [Printed(o.value)]
  {
    match o
    case Raised(e) => [CommandError(e)]
    case Returned(v) => if Truthy(v) then [Printed(v)] else []
  }

  /**
   `_execute_command(line)`: split on whitespace; with no tokens do nothing;
   otherwise emit `command.executed` first, then look the first token up
   exactly and run its handler on the remaining tokens.
   */
  function Execute(env: Env, sh: Shell, line: string): (r: Shell)
    requires Valid(sh)
    ensures Valid(r)
    ensures Split(line) == [] ==> r == sh
    ensures Split(line) != [] ==> r.running == (sh.running && Lookup(sh, Split(line)[0]) != Some(BuiltinCmd(Exit)))
    ensures Split(line) != [] && Lookup(sh, Split(line)[0]).None? ==>
              && r == (var s1 := ShellEmit(env, sh, CommandExecuted, ExecutedData(line, Split(line)[1..]));
                       s1.(out := s1.out + [UnknownCommand(Split(line)[0])]))
              && r.commands == sh.commands && r.plugins == sh.plugins
    ensures Split(line) != [] && Lookup(sh, Split(line)[0]) != Some(BuiltinCmd(Reload)) ==>
              && r.bus.history == Newest(sh.bus.history + [EventBus.Event(CommandExecuted, ExecutedData(line, Split(line)[1..]))], EventBus.HistoryLimit)
              && r.commands == sh.commands && r.plugins == sh.plugins
    ensures Split(line) != [] && Lookup(sh, Split(line)[0]).Some? && Lookup(sh, Split(line)[0]).value.PluginCmd? ==>
              r.out == ShellEmit(env, sh, CommandExecuted, ExecutedData(line, Split(line)[1..])).out
                       + Report(env.run(Lookup(sh, Split(line)[0]).value.id, Split(line)[1..]))
  {
    var parts := Split(line);
    if parts == [] then sh
    else
      var s1 := ShellEmit(env, sh, CommandExecuted, ExecutedData(line, parts[1..]));
      var name := parts[0];
      if name in s1.commands then
        var (s2, o) := RunHandler(env, s1, s1.commands[name], parts[1..]);
        s2.(out := s2.out + Report(o))
      else s1.(out := s1.out + [UnknownCommand(name)])
  }

  /** `name in self.commands`: exact and case-sensitive, no prefix matching. */
  function Lookup(sh: Shell, name: string): (r: Option<Handler>)
    ensures r.Some? <==> name in sh.commands
    ensures r.Some? ==> r.value == sh.commands[name]
  {
    if name in sh.commands then Some(sh.commands[name]) else None
  }

  /**
   Every non-empty line is counted under its first token before the lookup,
   so unknown names and failing commands are counted too.
   */
  lemma ExecuteCounts(env: Env, sh: Shell, line: string, c: string)
    requires Valid(sh) && Split(line) != []
    ensures UsageTracker.CountOf(Execute(env, sh, line).tracker, c)
            == UsageTracker.CountOf(sh.tracker, c) + (if c == Split(line)[0] then 1 else 0)
  {
    EmitCountsOnce(env, sh, line, Split(line)[1..], c);
  }

  /** A handler that raises is reported as a command error and the shell carries on. */
  lemma ExecuteFaultReported(env: Env, sh: Shell, line: string, id: nat, e: Exception)
    requires Valid(sh) && Split(line) != []
    requires Lookup(sh, Split(line)[0]) == Some(PluginCmd(id))
    requires env.run(id, Split(line)[1..]) == Raised(e)
    ensures EndsWith(Execute(env, sh, line).out, CommandError(e))
    ensures Execute(env, sh, line).running == sh.running
    ensures Execute(env, sh, line).commands == sh.commands
  {
  }

  /** An unknown name runs nothing: only the counting emit and the error message happen. */
  lemma ExecuteUnknown(env: Env, sh: Shell, line: string)
    requires Valid(sh) && Split(line) != [] && Lookup(sh, Split(line)[0]).None?
    ensures Execute(env, sh, line).running == sh.running
    ensures Execute(env, sh, line).commands == sh.commands
    ensures EndsWith(Execute(env, sh, line).out, UnknownCommand(Split(line)[0]))
  {
  }

  /**
   Names are looked up exactly and the built-ins are lower-case: a line such
   as `EXIT` is unknown to a fresh shell and does not stop it.
   */
  lemma CapitalisedIsUnknown(env: Env, ed: Edition, line: string)
    requires Split(line) != [] && IsUpper(Split(line)[0][0])
    ensures Execute(env, New(ed), line).running
    ensures EndsWith(Execute(env, New(ed), line).out, UnknownCommand(Split(line)[0]))
  {
    var sh := New(ed);
    NotBuiltin(ed, Split(line)[0]);
    assert Lookup(sh, Split(line)[0]).None?;
    ExecuteUnknown(env, sh, line);
  }

  /** A name starting with an upper-case letter is not a built-in. */
  lemma NotBuiltin(ed: Edition, name: string)
    requires name != "" && IsUpper(name[0])
    ensures name !in New(ed).commands
  {
    var ns := BuiltinNames(ed);
    forall i | 0 <= i < |ns| ensures ns[i] != name {
      assert !IsUpper(CharAt(ns[i], 0));
    }
  }

  // ---------------------------------------------------------------------------
  // The read loop
  // ---------------------------------------------------------------------------

  /** What one `input()` call produces. */
  datatype Input = Line(text: string) | EndOfInput | Interrupt | ReadError(error: Exception)

  /**
   `_main_loop`: while `running`, read a line, strip it and execute it when
   non-empty. Interrupt prints a goodbye and ends the loop, end of input ends
   it silently, and any other exception is printed and the loop goes on.
   Running out of scripted input counts as end of input. The second
   component is the number of inputs read.
   */
  function RunLoop(env: Env, sh: Shell, ins: seq<Input>): (r: (Shell, nat))
    requires Valid(sh)
    ensures Valid(r.0)
    ensures r.1 <= |ins|
    ensures !sh.running ==> r == (sh, 0)
    decreases |ins|
  {
    if !sh.running || ins == [] then (sh, 0)
    else
      match ins[0]
      case EndOfInput => (sh, 1)
      case Interrupt => (sh.(out := sh.out + [Goodbye]), 1)
      case _ =>
        var (r, n) := RunLoop(env, LoopStep(env, sh, ins[0]), ins[1..]);
        (r, n + 1)
  }

  /** One pass of the loop body for an input that does not end the loop. */
  function LoopStep(env: Env, sh: Shell, i: Input): (r: Shell)
    requires Valid(sh)
    ensures Valid(r)
  {
    match i
    case ReadError(e) => sh.(out := sh.out + [LoopError(e)])
    case Line(t) => var line := Strip(t); if line != "" then Execute(env, sh, line) else sh
    case _ => sh
  }

  /**
   The loop stops only when `running` has gone false, on end of input or
   interrupt, or when the inputs are used up; it never stops on a read error.
   */
  lemma {:induction false} LoopStopsOnlyWhen(env: Env, sh: Shell, ins: seq<Input>)
    requires Valid(sh)
    ensures StoppedFor(ins, RunLoop(env, sh, ins))
    decreases |ins|
  {
    if sh.running && ins != [] && (ins[0].ReadError? || ins[0].Line?) {
      var s1 := LoopStep(env, sh, ins[0]);
      var r := RunLoop(env, s1, ins[1..]);
      assert RunLoop(env, sh, ins) == (r.0, r.1 + 1);
      LoopStopsOnlyWhen(env, s1, ins[1..]);
      if 0 < r.1 {
        assert ins[1..][r.1 - 1] == ins[r.1];
      }
    }
  }

  /** The loop ended because inputs ran out, `running` went false, or the last input read ended it. */
  predicate StoppedFor(ins: seq<Input>, r: (Shell, nat))
  {
    r.1 == |ins| || !r.0.running
    || (0 < r.1 <= |ins| && (ins[r.1 - 1].EndOfInput? || ins[r.1 - 1].Interrupt?))
  }

  /** A line whose command is bound to `_cmd_exit` is the last one read. */
  lemma ExitEndsLoop(env: Env, sh: Shell, t: string, rest: seq<Input>)
    requires Valid(sh) && sh.running
    requires Split(Strip(t)) != [] && Lookup(sh, Split(Strip(t))[0]) == Some(BuiltinCmd(Exit))
    ensures RunLoop(env, sh, [Line(t)] + rest).1 == 1
    ensures !RunLoop(env, sh, [Line(t)] + rest).0.running
  {
    assert Strip(t) != "";
    assert ([Line(t)] + rest)[1..] == rest;
  }

  /** A fresh shell reading `quit` stops after that line, whatever follows. */
  lemma QuitStopsFreshShell(env: Env, ed: Edition, rest: seq<Input>)
    ensures RunLoop(env, New(ed), [Line("quit")] + rest).1 == 1
  {
    var sh := New(ed);
    QuitLine();
    QuitIsExit(ed);
    ExitEndsLoop(env, sh, "quit", rest);
  }

  lemma QuitLine()
    ensures Split(Strip("quit")) == ["quit"]
  {
    StripOfNoSpaceEnds("quit");
    SplitWord("quit");
  }

  lemma QuitIsExit(ed: Edition)
    ensures Lookup(New(ed), "quit") == Some(BuiltinCmd(Exit))
  {
    BuiltinAliases(ed);
  }
}
