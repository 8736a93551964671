/**
 The package plugin managers: `PluginManager` in plugins/plugin_manager.py
 (the `Legacy` variant) and in plugins/plugin_manager_core.py (the `Core`
 variant). Both keep a lower-cased command registry resolved exact-first,
 then by unique prefix, an event-handler registry with fault-isolated
 fan-out, a `setup()`-factory plugin loader that skips loaded modules, and a
 reload that clears everything and re-seeds `help`, `plugins` and `reload`.

 Modules are data: what importing them raises, what `setup()` returns or
 raises, and the `commands`/`event_handlers` attributes of the object that
 ends up recorded. Plugin handlers are opaque ids whose outcomes come from an
 environment.
 */
module PackageManager {
  import opened Common
  import OrderedDict
  import FanOut
  import ErrorHandler

  datatype Variant = Legacy | Core

  /** A registry value: one of the manager's own three commands or a plugin callable. */
  datatype Handler = ShowHelp | ListPlugins | ReloadPlugins | Ext(id: nat)

  /** The `commands` and `event_handlers` attributes of a plugin object, when it has them, in dict order. */
  datatype Attrs = Attrs(commands: Option<seq<(string, nat)>>, eventHandlers: Option<seq<(string, nat)>>)

  /** A recorded plugin: Python `None` (possible in the `Legacy` variant) or an object. */
  datatype PluginObj = NoneObj | Obj(attrs: Attrs)

  /** What calling `setup()` does. */
  datatype Setup = SetupRaises(error: Exception) | SetupReturns(result: PluginObj)

  /**
   An importable plugin module: the exception importing it raises, if any; its
   `setup` function, if it has one; and its own attributes.
   */
  datatype Module = Module(importError: Option<Exception>, setup: Option<Setup>, own: Attrs)

  /** A directory entry under `plugins/`. */
  datatype Entry = Entry(name: string, isDir: bool, hasInit: bool)

  /** What the manager prints, without the exact wording. */
  datatype Message =
    | LoadedMsg(plugin: string)
    | LoadFailedMsg(plugin: string, error: Exception)
    | ExecError(error: Exception)
    | Candidates(names: seq<string>)
    | HelpList(names: seq<string>)
    | PluginList(names: seq<string>)
    | NoPlugins

  /**
   The world outside the model: the modules `import_module` finds, the
   `plugins/` directory listing, what plugin handlers return or raise, and
   their `__name__`s.
   */
  datatype Env = Env(
    modules: string -> Module,
    entries: seq<Entry>,
    run: (nat, seq<string>) -> Outcome,
    raisesOn: (nat, string) -> Option<Exception>,
    nameOf: nat -> string)

  datatype Manager = Manager(
    variant: Variant,
    commands: OrderedDict.Dict<Handler>,
    eventHandlers: map<string, seq<nat>>,
    plugins: OrderedDict.Dict<PluginObj>,
    log: seq<ErrorHandler.Record>,
    out: seq<Message>)

  ghost predicate Valid(m: Manager)
  {
    OrderedDict.Valid(m.commands) && OrderedDict.Valid(m.plugins)
  }

  /** The names `_register_core_commands` seeds, in order. */
  const CoreNames: seq<string> := ["help", "plugins", "reload"]

  /** The modules `load_plugins` always tries first, in order. */
  const CorePlugins: seq<string> := ["error_handler", "hardware_analyzer", "docker_manager"]

  // ---------------------------------------------------------------------------
  // Registries
  // ---------------------------------------------------------------------------

  /** `register_command(name, h)`: stored under the lower-cased name, last writer wins. */
  function RegisterCommand(m: Manager, name: string, h: Handler): (r: Manager)
    requires Valid(m)
    ensures Valid(r)
    ensures Lower(name) in r.commands.vals && r.commands.vals[Lower(name)] == h
    ensures forall k :: k != Lower(name) ==> (k in r.commands.vals <==> k in m.commands.vals)
    ensures forall k :: k != Lower(name) && k in m.commands.vals ==> r.commands.vals[k] == m.commands.vals[k]
    ensures Lower(name) in m.commands.vals ==> r.commands.keys == m.commands.keys
    ensures Lower(name) !in m.commands.vals ==> r.commands.keys == m.commands.keys + [Lower(name)]
    ensures r.commands.vals.Keys == m.commands.vals.Keys + {Lower(name)}
    ensures r.plugins == m.plugins && r.eventHandlers == m.eventHandlers && r.variant == m.variant && r.log == m.log
  {
    m.(commands := OrderedDict.Put(m.commands, Lower(name), h))
  }

  /** `register_event_handler(event, id)`: append, creating the list on first use. */
  function RegisterEventHandler(m: Manager, event: string, id: nat): (r: Manager)
    ensures HandlersOf(r, event) == HandlersOf(m, event) + [id]
    ensures forall e :: e != event ==> HandlersOf(r, e) == HandlersOf(m, e)
    ensures forall e :: e in r.eventHandlers <==> e in m.eventHandlers || e == event
    ensures r.commands == m.commands && r.plugins == m.plugins && r.variant == m.variant && r.log == m.log
  {
    m.(eventHandlers := m.eventHandlers[event := HandlersOf(m, event) + [id]])
  }

  /** The handlers registered for an event, `[]` when there are none. */
  function HandlersOf(m: Manager, event: string): seq<nat>
  {
    if event in m.eventHandlers then m.eventHandlers[event] else []
  }

  /** The lower-cased names of a `commands` dict. */
  function CommandNames(cs: seq<(string, nat)>): set<string>
  {
    if cs == [] then {} else {Lower(cs[0].0)} + CommandNames(cs[1..])
  }

  /**
   The callable a `commands` dict leaves bound under the lower-cased name `k`:
   the one of the last entry whose name lower-cases to `k`, or none.
   */
  function LastBound(cs: seq<(string, nat)>, k: string): (r: Option<nat>)
    ensures r.Some? <==> k in CommandNames(cs)
    decreases |cs|
  {
    if cs == [] then None
    else
      var later := LastBound(cs[1..], k);
      if later.Some? then later
      else if Lower(cs[0].0) == k then Some(cs[0].1)
      else None
  }

  /** The callables an `event_handlers` dict lists for `event`, in dict order. */
  function HandlersIn(es: seq<(string, nat)>, event: string): seq<nat>
    decreases |es|
  {
    if es == [] then [] else (if es[0].0 == event then [es[0].1] else []) + HandlersIn(es[1..], event)
  }

  /**
   The command registry after registering `cs` into `m`'s: each name of `cs`
   is bound to its last callable, every other name keeps its binding.
   */
  ghost predicate CommandsBound(m: Manager, r: Manager, cs: seq<(string, nat)>)
  {
    && (forall k :: LastBound(cs, k).Some? ==>
          k in r.commands.vals && r.commands.vals[k] == Ext(LastBound(cs, k).value))
    && (forall k :: LastBound(cs, k).None? ==>
          (k in r.commands.vals <==> k in m.commands.vals)
          && (k in m.commands.vals ==> r.commands.vals[k] == m.commands.vals[k]))
  }

  /** The event registry after registering `es` into `m`'s: each event's new callables appended in order. */
  ghost predicate HandlersAppended(m: Manager, r: Manager, es: seq<(string, nat)>)
  {
    forall e :: HandlersOf(r, e) == HandlersOf(m, e) + HandlersIn(es, e)
  }

  /** Register every `(name, id)` of a `commands` dict, in order. */
  function RegisterCommands(m: Manager, cs: seq<(string, nat)>): (r: Manager)
    requires Valid(m)
    ensures Valid(r)
    ensures r.commands.vals.Keys == m.commands.vals.Keys + CommandNames(cs)
    ensures CommandsBound(m, r, cs)
    ensures r.plugins == m.plugins && r.eventHandlers == m.eventHandlers && r.variant == m.variant && r.log == m.log
    decreases |cs|
  {
    if cs == [] then m
    else
      var m1 := RegisterCommand(m, cs[0].0, Ext(cs[0].1));
      var r := RegisterCommands(m1, cs[1..]);
      assert CommandNames(cs) == {Lower(cs[0].0)} + CommandNames(cs[1..]);
      RegisterCommandsStep(m, m1, r, cs);
      r
  }

  /** Binding the first entry and then the rest binds every name of the whole dict to its last callable. */
  lemma RegisterCommandsStep(m: Manager, m1: Manager, r: Manager, cs: seq<(string, nat)>)
    requires Valid(m) && cs != []
    requires m1 == RegisterCommand(m, cs[0].0, Ext(cs[0].1))
    requires CommandsBound(m1, r, cs[1..])
    ensures CommandsBound(m, r, cs)
  {
    forall k | LastBound(cs, k).Some?
      ensures k in r.commands.vals && r.commands.vals[k] == Ext(LastBound(cs, k).value)
    {
      if LastBound(cs[1..], k).None? {
        assert k == Lower(cs[0].0);
      }
    }
  }

  /** Register every `(event, id)` of an `event_handlers` dict, in order. */
  function RegisterEventHandlers(m: Manager, es: seq<(string, nat)>): (r: Manager)
    ensures HandlersAppended(m, r, es)
    ensures r.commands == m.commands && r.plugins == m.plugins && r.variant == m.variant && r.log == m.log
    decreases |es|
  {
    if es == [] then m
    else
      var m1 := RegisterEventHandler(m, es[0].0, es[0].1);
      var r := RegisterEventHandlers(m1, es[1..]);
      RegisterEventHandlersStep(m, m1, r, es);
      r
  }

  /** Appending the first entry and then the rest appends the whole dict's callables per event. */
  lemma RegisterEventHandlersStep(m: Manager, m1: Manager, r: Manager, es: seq<(string, nat)>)
    requires es != [] && m1 == RegisterEventHandler(m, es[0].0, es[0].1)
    requires HandlersAppended(m1, r, es[1..])
    ensures HandlersAppended(m, r, es)
  {
    forall e ensures HandlersOf(r, e) == HandlersOf(m, e) + HandlersIn(es, e) {
      var h := if es[0].0 == e then [es[0].1] else [];
      assert HandlersOf(m1, e) == HandlersOf(m, e) + h;
      assert HandlersIn(es, e) == h + HandlersIn(es[1..], e);
      assert HandlersOf(r, e) == HandlersOf(m1, e) + HandlersIn(es[1..], e);
    }
  }

  /** A missing `commands` or `event_handlers` attribute registers nothing, like an empty dict. */
  function CommandsOf(a: Attrs): seq<(string, nat)>
  {
    a.commands.GetOr([])
  }

  function EventHandlersOf(a: Attrs): seq<(string, nat)>
  {
    a.eventHandlers.GetOr([])
  }

  /**
   What registering a recorded object does to the registries: nothing for
   `None`; for an object, its `commands` bound and its `event_handlers`
   appended.
   */
  ghost predicate Registers(m: Manager, r: Manager, obj: PluginObj)
  {
    match obj
    case NoneObj => r.commands == m.commands && r.eventHandlers == m.eventHandlers
    case Obj(a) => CommandsBound(m, r, CommandsOf(a)) && HandlersAppended(m, r, EventHandlersOf(a))
  }

  /**
   The registration step of `_load_plugin` for a recorded object: every
   `commands` entry bound under its lower-cased name, then every
   `event_handlers` entry appended to its event's list.
   */
  function RegisterAttrs(m: Manager, obj: PluginObj): (r: Manager)
    requires Valid(m)
    ensures Valid(r)
    ensures obj.NoneObj? ==> r == m
    ensures Registers(m, r, obj)
    ensures r.plugins == m.plugins && r.variant == m.variant && r.log == m.log
  {
    match obj
    case NoneObj => m
    case Obj(a) =>
      var m1 := RegisterCommands(m, CommandsOf(a));
      var r := RegisterEventHandlers(m1, EventHandlersOf(a));
      RegistersFromSteps(m, m1, r, a);
      r
  }

  /** Binding the commands and then appending the event handlers registers the whole object. */
  lemma RegistersFromSteps(m: Manager, m1: Manager, r: Manager, a: Attrs)
    requires CommandsBound(m, m1, CommandsOf(a)) && m1.eventHandlers == m.eventHandlers
    requires HandlersAppended(m1, r, EventHandlersOf(a)) && r.commands == m1.commands
    ensures Registers(m, r, Obj(a))
  {
    assert forall e :: HandlersOf(m1, e) == HandlersOf(m, e);
  }

  // ---------------------------------------------------------------------------
  // Command resolution
  // ---------------------------------------------------------------------------

  datatype Resolution = Exact(name: string) | Unique(name: string) | Ambiguous(candidates: seq<string>) | NotFound

  /** The registry keys that start with `cmd`, in insertion order. */
  function PrefixMatches(keys: seq<string>, cmd: string): (r: seq<string>)
    ensures forall k :: k in r <==> k in keys && StartsWith(k, cmd)
  {
    Filter(keys, k => StartsWith(k, cmd))
  }

  /**
   The lookup of `execute_command`: lower-case the input; a key equal to it
   wins; otherwise the keys it is a prefix of decide.
   */
  function Resolve(m: Manager, cmd: string): (r: Resolution)
    ensures Lower(cmd) in m.commands.vals <==> r == Exact(Lower(cmd))
    ensures r.Unique? ==> r.name in m.commands.keys && StartsWith(r.name, Lower(cmd))
    ensures r.Unique? ==> PrefixMatches(m.commands.keys, Lower(cmd)) == [r.name]
    ensures r.Ambiguous? ==> r.candidates == PrefixMatches(m.commands.keys, Lower(cmd)) && |r.candidates| > 1
    ensures r.NotFound? ==> PrefixMatches(m.commands.keys, Lower(cmd)) == []
    ensures Lower(cmd) !in m.commands.vals ==>
              (|PrefixMatches(m.commands.keys, Lower(cmd))| == 1 <==> r.Unique?)
  {
    var c := Lower(cmd);
    if c in m.commands.vals then Exact(c)
    else
      var ms := PrefixMatches(m.commands.keys, c);
      if |ms| == 1 then
        assert ms[0] in ms && ms == [ms[0]];
        Unique(ms[0])
      else if |ms| > 1 then Ambiguous(ms)
      else NotFound
  }

  /** Exactly one key has the input as prefix: that key is the one run. */
  lemma UniquePrefixRuns(m: Manager, cmd: string, k: string)
    requires Valid(m) && Lower(cmd) !in m.commands.vals
    requires k in m.commands.vals && StartsWith(k, Lower(cmd))
    requires forall j :: j in m.commands.vals && StartsWith(j, Lower(cmd)) ==> j == k
    ensures Resolve(m, cmd) == Unique(k)
  {
    var ms := PrefixMatches(m.commands.keys, Lower(cmd));
    assert k in ms;
    OrderedDict.FilterDistinct(m.commands.keys, k => StartsWith(k, Lower(cmd)));
    OneElement(ms, k);
  }

  /** A sequence without repeats whose only member is `k` is `[k]`. */
  lemma OneElement(ms: seq<string>, k: string)
    requires Distinct(ms) && k in ms && forall j :: j in ms ==> j == k
    ensures ms == [k]
  {
    assert ms[0] in ms;
    if |ms| > 1 {
      FirstTwoDiffer(ms);
      assert false;
    }
    assert ms == [ms[0]];
  }

  lemma FirstTwoDiffer(ms: seq<string>)
    requires Distinct(ms) && |ms| > 1
    ensures ms[0] != ms[1] && ms[1] in ms
  {
  }

  // ---------------------------------------------------------------------------
  // Executing commands and emitting events
  // ---------------------------------------------------------------------------

  /** What `execute_command` produced: the new state, its return value, and the handler it ran. */
  datatype Exec = Exec(m: Manager, value: Val, ran: Option<Handler>)

  /** The record `error_handler.log_error(e, context)` logs. */
  function LogEntry(e: Exception, context: map<string, Val>): ErrorHandler.Record
  {
    ErrorHandler.MakeRecord(e, Some(context))
  }

  /** The `log_error` context for a failed command. */
  function CommandContext(m: Manager, env: Env, name: string, h: Handler, args: seq<string>): map<string, Val>
  {
    var who := if m.variant == Legacy then name else HandlerName(env, h);
    map["command" := StrVal(who), "args" := ListVal(args)]
  }

  /** `handler.__name__`. */
  function HandlerName(env: Env, h: Handler): string
  {
    match h
    case ShowHelp => "show_help"
    case ListPlugins => "list_plugins"
    case ReloadPlugins => "reload_plugins"
    case Ext(id) => env.nameOf(id)
  }

  /** Call a handler with the arguments spread; an exception is logged, printed and gives `False`. */
  function Call(m: Manager, env: Env, name: string, h: Handler, args: seq<string>): (r: Exec)
    requires Valid(m)
    ensures Valid(r.m)
    ensures r.ran == Some(h)
    ensures h.Ext? && env.run(h.id, args).Raised? ==>
              r.value == BoolVal(false)
              && r.m.log == m.log + [LogEntry(env.run(h.id, args).error, CommandContext(m, env, name, h, args))]
    ensures h.Ext? && env.run(h.id, args).Returned? ==> r == Exec(m, env.run(h.id, args).value, Some(h))
  {
    match h
    case Ext(id) =>
      (match env.run(id, args)
       case Returned(v) => Exec(m, v, Some(h))
       case Raised(e) =>
         Exec(m.(log := m.log + [LogEntry(e, CommandContext(m, env, name, h, args))],
                 out := m.out + [ExecError(e)]), BoolVal(false), Some(h)))
    case ShowHelp => Exec(m.(out := m.out + [HelpList(HelpNames(m))]), BoolVal(true), Some(h))
    case ListPlugins => Exec(m.(out := m.out + PluginListing(m)), BoolVal(true), Some(h))
    case ReloadPlugins => Exec(Reload(m, env), BoolVal(true), Some(h))
  }

  /**
   `execute_command(cmd, args)`: run the exact match, else the unique prefix
   match; with several prefix matches print them and return `False`; with
   none return `False`.
   */
  function Execute(m: Manager, env: Env, cmd: string, args: seq<string>): (r: Exec)
    requires Valid(m)
    ensures Valid(r.m)
    ensures Resolve(m, cmd).Exact? ==> r.ran == Some(m.commands.vals[Lower(cmd)])
    ensures Resolve(m, cmd).Unique? ==> r.ran == Some(m.commands.vals[Resolve(m, cmd).name])
    ensures Resolve(m, cmd).Ambiguous? ==>
              r == Exec(m.(out := m.out + [Candidates(Resolve(m, cmd).candidates)]), BoolVal(false), None)
    ensures Resolve(m, cmd).NotFound? ==> r == Exec(m, BoolVal(false), None)
  {
    match Resolve(m, cmd)
    case Exact(k) => Call(m, env, k, m.commands.vals[k], args)
    case Unique(k) => Call(m, env, k, m.commands.vals[k], args)
    case Ambiguous(cs) => Exec(m.(out := m.out + [Candidates(cs)]), BoolVal(false), None)
    case NotFound => Exec(m, BoolVal(false), None)
  }

  /** An exact key runs its handler even when longer keys share it as a prefix. */
  lemma ExactBeatsPrefix(m: Manager, env: Env, cmd: string, args: seq<string>, longer: string)
    requires Valid(m) && Lower(cmd) in m.commands.vals
    requires longer in m.commands.vals && longer != Lower(cmd) && StartsWith(longer, Lower(cmd))
    ensures Execute(m, env, cmd, args).ran == Some(m.commands.vals[Lower(cmd)])
  {
  }

  /**
   `emit_event(event)` (the `Legacy` variant only has it): nothing for an event
   without handlers; otherwise every handler in registration order, each
   exception logged and the rest still run.
   */
  function EmitEvent(m: Manager, env: Env, event: string): (r: Manager)
    ensures r.commands == m.commands && r.plugins == m.plugins && r.eventHandlers == m.eventHandlers
    ensures event !in m.eventHandlers ==> r == m
    ensures |r.log| == |m.log| + |Filter(HandlersOf(m, event), id => env.raisesOn(id, event).Some?)|
    ensures r.log == m.log + EventLogs(env, event, Filter(HandlersOf(m, event), id => env.raisesOn(id, event).Some?))
  {
    if event !in m.eventHandlers then m
    else
      var hs := m.eventHandlers[event];
      var ds := FanOut.Deliver(hs, id => env.raisesOn(id, event).Some?);
      FanOut.DeliverLogsFaults(hs, id => env.raisesOn(id, event).Some?);
      assert HandlersOf(m, event) == hs;
      m.(log := m.log + EventLogs(env, event, FanOut.Logged(ds)))
  }

  /** The `log_error` context for a handler that raised on an event. */
  function EventContext(env: Env, event: string, id: nat): map<string, Val>
  {
    map["event" := StrVal(event), "handler" := StrVal(env.nameOf(id))]
  }

  /** One log entry per failing handler, in call order. */
  function EventLogs(env: Env, event: string, failed: seq<nat>): (r: seq<ErrorHandler.Record>)
    ensures |r| == |failed|
    ensures forall i :: 0 <= i < |failed| && env.raisesOn(failed[i], event).Some? ==>
              r[i] == LogEntry(env.raisesOn(failed[i], event).value, EventContext(env, event, failed[i]))
  {
    if failed == [] then []
    else
      var id := failed[0];
      var e := env.raisesOn(id, event).GetOr(Exception("Exception", ""));
      [LogEntry(e, EventContext(env, event, id))] + EventLogs(env, event, failed[1..])
  }

  /**
   `emit_event` is the fan-out over the event's handlers: every handler is
   called once, in registration order, whatever the others raise, and the
   log gains one entry for each handler that raised, in call order.
   */
  lemma EmitCallsAllInOrder(m: Manager, env: Env, event: string)
    ensures var ds := FanOut.Deliver(HandlersOf(m, event), id => env.raisesOn(id, event).Some?);
            && FanOut.Called(ds) == HandlersOf(m, event)
            && EmitEvent(m, env, event).log == m.log + EventLogs(env, event, FanOut.Logged(ds))
  {
    FanOut.DeliverCallsAllInOrder(HandlersOf(m, event), id => env.raisesOn(id, event).Some?);
    FanOut.DeliverLogsFaults(HandlersOf(m, event), id => env.raisesOn(id, event).Some?);
  }

  // ---------------------------------------------------------------------------
  // Loading
  // ---------------------------------------------------------------------------

  /** `moduleName.split('.')[-1]`: the part after the last dot. */
  function ShortName(moduleName: string): (r: string)
    ensures '.' !in r
    ensures |r| <= |moduleName| && r == moduleName[|moduleName| - |r|..]
    ensures |r| < |moduleName| ==> moduleName[|moduleName| - |r| - 1] == '.'
  {
    if moduleName == [] || moduleName[|moduleName| - 1] == '.' then []
    else ShortName(moduleName[..|moduleName| - 1]) + [moduleName[|moduleName| - 1]]
  }

  /** The `log_error` context for a failed load. */
  function LoadContext(moduleName: string): map<string, Val>
  {
    map["plugin" := StrVal(moduleName), "action" := StrVal("load")]
  }

  function LoadFailed(m: Manager, moduleName: string, e: Exception): (r: Manager)
    ensures r.commands == m.commands && r.plugins == m.plugins && r.eventHandlers == m.eventHandlers
    ensures r.log == m.log + [LogEntry(e, LoadContext(moduleName))]
  {
    m.(log := m.log + [LogEntry(e, LoadContext(moduleName))],
       out := m.out + [LoadFailedMsg(ShortName(moduleName), e)])
  }

  /**
   What `_load_plugin` records for a module, or `None` when it records
   nothing; the `Legacy` variant keeps a `None` from `setup()`, the `Core`
   variant falls back to the module, also when there is no `setup`.
   */
  function Recorded(v: Variant, mod: Module): (r: Option<PluginObj>)
    requires mod.importError.None? && !(mod.setup.Some? && mod.setup.value.SetupRaises?)
    ensures v == Core ==> r.Some? && r.value.Obj?
    ensures v == Legacy ==> (r.Some? <==> mod.setup.Some?)
  {
    match mod.setup
    case None => if v == Legacy then None else Some(Obj(mod.own))
    case Some(s) =>
      var obj := s.result;
      if v == Core && obj.NoneObj? then Some(Obj(mod.own)) else Some(obj)
  }

  /**
   `_load_plugin(moduleName)`. The `Legacy` variant imports before the
   already-loaded check, so an import error is logged even for a loaded
   module; the `Core` variant checks first and does nothing at all.
   */
  function LoadPlugin(m: Manager, env: Env, moduleName: string): (r: Manager)
    requires Valid(m)
    ensures Valid(r)
    ensures r.variant == m.variant
    ensures moduleName in m.plugins.vals ==> r.plugins == m.plugins && r.commands == m.commands
    ensures moduleName in m.plugins.vals && m.variant == Core ==> r == m
    ensures moduleName in m.plugins.vals && m.variant == Legacy ==>
              r.log == m.log + (match env.modules(moduleName).importError
                                case None => []
                                case Some(e) => [LogEntry(e, LoadContext(moduleName))])
    ensures moduleName !in m.plugins.vals && Loads(m.variant, env.modules(moduleName)) ==>
              moduleName in r.plugins.vals && r.plugins.vals[moduleName] == Recorded(m.variant, env.modules(moduleName)).value
    ensures forall k :: k in r.plugins.vals ==> k in m.plugins.vals || k == moduleName
    ensures forall k :: k in m.plugins.vals ==> k in r.plugins.vals && r.plugins.vals[k] == m.plugins.vals[k]
    ensures moduleName !in m.plugins.vals ==>
              (moduleName in r.plugins.vals <==> Loads(m.variant, env.modules(moduleName)))
    ensures moduleName !in m.plugins.vals && Loads(m.variant, env.modules(moduleName)) ==>
              r.log == m.log && Registers(m, r, Recorded(m.variant, env.modules(moduleName)).value)
    ensures moduleName !in m.plugins.vals && LoadFault(env.modules(moduleName)).Some? ==>
              && r.log == m.log + [LogEntry(LoadFault(env.modules(moduleName)).value, LoadContext(moduleName))]
              && r.commands == m.commands && r.eventHandlers == m.eventHandlers && r.plugins == m.plugins
    ensures moduleName !in m.plugins.vals && LoadFault(env.modules(moduleName)).None? && !Loads(m.variant, env.modules(moduleName)) ==>
              r == m
  {
    var mod := env.modules(moduleName);
    if m.variant == Core && moduleName in m.plugins.vals then m
    else if mod.importError.Some? then LoadFailed(m, moduleName, mod.importError.value)
    else if moduleName in m.plugins.vals then m
    else LoadNew(m, moduleName, mod)
  }

  /** `_load_plugin` for a module that imported and is not yet loaded: call `setup()`, record, register. */
  function LoadNew(m: Manager, moduleName: string, mod: Module): (r: Manager)
    requires Valid(m) && moduleName !in m.plugins.vals && mod.importError.None?
    ensures Valid(r)
    ensures r.variant == m.variant
    ensures moduleName in r.plugins.vals <==> Loads(m.variant, mod)
    ensures Loads(m.variant, mod) ==>
              && r.plugins.vals[moduleName] == Recorded(m.variant, mod).value
              && r.log == m.log && Registers(m, r, Recorded(m.variant, mod).value)
    ensures LoadFault(mod).Some? ==>
              && r.log == m.log + [LogEntry(LoadFault(mod).value, LoadContext(moduleName))]
              && r.commands == m.commands && r.eventHandlers == m.eventHandlers && r.plugins == m.plugins
    ensures LoadFault(mod).None? && !Loads(m.variant, mod) ==> r == m
    ensures forall k :: k in r.plugins.vals ==> k in m.plugins.vals || k == moduleName
    ensures forall k :: k in m.plugins.vals ==> k in r.plugins.vals && r.plugins.vals[k] == m.plugins.vals[k]
  {
    if mod.setup.Some? && mod.setup.value.SetupRaises? then LoadFailed(m, moduleName, mod.setup.value.error)
    else
      match Recorded(m.variant, mod)
      case None => m
      case Some(obj) =>
        var m1 := m.(plugins := OrderedDict.Put(m.plugins, moduleName, obj),
                     out := m.out + [LoadedMsg(ShortName(moduleName))]);
        var r := RegisterAttrs(m1, obj);
        RegistersFrame(m, m1, r, obj);
        r
  }

  /** Registration only looks at the registries, not at the records or the output. */
  lemma RegistersFrame(m: Manager, m1: Manager, r: Manager, obj: PluginObj)
    requires m1.commands == m.commands && m1.eventHandlers == m.eventHandlers
    requires Registers(m1, r, obj)
    ensures Registers(m, r, obj)
  {
    assert forall e :: HandlersOf(m1, e) == HandlersOf(m, e);
  }

  /** The exception `_load_plugin` catches for a module: from the import, or else from `setup()`. */
  function LoadFault(mod: Module): (r: Option<Exception>)
    ensures r.None? <==> mod.importError.None? && !(mod.setup.Some? && mod.setup.value.SetupRaises?)
  {
    if mod.importError.Some? then mod.importError
    else if mod.setup.Some? && mod.setup.value.SetupRaises? then Some(mod.setup.value.error)
    else None
  }

  /** A module that is not yet loaded ends up recorded. */
  predicate Loads(v: Variant, mod: Module)
  {
    && mod.importError.None?
    && !(mod.setup.Some? && mod.setup.value.SetupRaises?)
    && (v == Core || mod.setup.Some?)
  }

  /** Load modules in order, each whatever the others did. */
  function LoadAll(m: Manager, env: Env, names: seq<string>): (r: Manager)
    requires Valid(m)
    ensures Valid(r)
    ensures r.variant == m.variant
    ensures forall k :: k in r.plugins.vals ==> k in m.plugins.vals || k in names
    ensures forall k :: k in m.plugins.vals ==> k in r.plugins.vals && r.plugins.vals[k] == m.plugins.vals[k]
    ensures forall k :: k !in m.plugins.vals ==>
              (k in r.plugins.vals <==> k in names && Loads(m.variant, env.modules(k)))
    ensures forall k :: k !in m.plugins.vals && k in names && Loads(m.variant, env.modules(k)) ==>
              k in r.plugins.vals && r.plugins.vals[k] == Recorded(m.variant, env.modules(k)).value
    decreases |names|
  {
    if names == [] then m
    else
      var m1 := LoadPlugin(m, env, names[0]);
      var r := LoadAll(m1, env, names[1..]);
      assert forall k :: k !in m.plugins.vals && k in names && Loads(m.variant, env.modules(k)) ==>
               k in r.plugins.vals && r.plugins.vals[k] == Recorded(m.variant, env.modules(k)).value by {
        forall k | k !in m.plugins.vals && k in names && Loads(m.variant, env.modules(k))
          ensures k in r.plugins.vals && r.plugins.vals[k] == Recorded(m.variant, env.modules(k)).value
        {
          if k != names[0] { assert k in names[1..]; }
        }
      }
      assert forall k :: k !in m.plugins.vals ==>
               (k in r.plugins.vals <==> k in names && Loads(m.variant, env.modules(k))) by {
        forall k | k !in m.plugins.vals
          ensures k in r.plugins.vals <==> k in names && Loads(m.variant, env.modules(k))
        {
          assert k in names <==> k == names[0] || k in names[1..];
        }
      }
      r
  }

  /** A directory `load_plugins` picks up after the core plugins. */
  predicate Eligible(e: Entry)
  {
    e.isDir && e.name !in CorePlugins && !StartsWith(e.name, "_") && e.name != "__pycache__" && e.hasInit
  }

  /** `plugins.` + each name. */
  function Qualified(names: seq<string>): (r: seq<string>)
    ensures |r| == |names|
    ensures forall i :: 0 <= i < |names| ==> r[i] == "plugins." + names[i]
  {
    if names == [] then [] else ["plugins." + names[0]] + Qualified(names[1..])
  }

  function EntryNames(es: seq<Entry>): (r: seq<string>)
    ensures |r| == |es| && forall i :: 0 <= i < |es| ==> r[i] == es[i].name
  {
    if es == [] then [] else [es[0].name] + EntryNames(es[1..])
  }

  /** The modules `load_plugins` tries: the core plugins in fixed order, then the eligible directories. */
  function LoadOrder(es: seq<Entry>): seq<string>
  {
    Qualified(CorePlugins) + Qualified(EntryNames(Filter(es, Eligible)))
  }

  /** `load_plugins`. */
  function LoadPlugins(m: Manager, env: Env): (r: Manager)
    requires Valid(m)
    ensures Valid(r)
    ensures r.variant == m.variant
    ensures forall k :: k in r.plugins.vals ==> k in m.plugins.vals || k in LoadOrder(env.entries)
    ensures forall k :: k in m.plugins.vals ==> k in r.plugins.vals && r.plugins.vals[k] == m.plugins.vals[k]
    ensures forall k :: k !in m.plugins.vals ==>
              (k in r.plugins.vals <==> k in LoadOrder(env.entries) && Loads(m.variant, env.modules(k)))
  {
    LoadAll(m, env, LoadOrder(env.entries))
  }

  /**
   `plugins.<n>` is tried exactly when `n` is a core plugin or the name of an
   eligible directory: not a core plugin, not starting with `_`, and holding
   an `__init__.py`.
   */
  lemma EligibleTried(es: seq<Entry>, n: string)
    ensures "plugins." + n in LoadOrder(es) <==> n in CorePlugins || exists e :: e in es && e.name == n && Eligible(e)
  {
    var fs := Filter(es, Eligible);
    QualifiedMember(CorePlugins, n);
    QualifiedMember(EntryNames(fs), n);
    assert n in EntryNames(fs) <==> exists e :: e in fs && e.name == n by {
      if n in EntryNames(fs) {
        var i :| 0 <= i < |fs| && EntryNames(fs)[i] == n;
        assert fs[i] in fs;
      }
      if exists e :: e in fs && e.name == n {
        var e :| e in fs && e.name == n;
        var i :| 0 <= i < |fs| && fs[i] == e;
        assert EntryNames(fs)[i] == n;
      }
    }
  }

  /** `plugins.<n>` is among the qualified names exactly when `n` is among the names. */
  lemma QualifiedMember(ns: seq<string>, n: string)
    ensures "plugins." + n in Qualified(ns) <==> n in ns
  {
    if "plugins." + n in Qualified(ns) {
      var i :| 0 <= i < |ns| && Qualified(ns)[i] == "plugins." + n;
      PrefixCancels("plugins.", n, ns[i]);
    }
    if n in ns {
      var i :| 0 <= i < |ns| && ns[i] == n;
      assert Qualified(ns)[i] == "plugins." + n;
    }
  }

  lemma PrefixCancels(p: string, a: string, b: string)
    requires p + a == p + b
    ensures a == b
  {
    assert a == (p + a)[|p|..];
    assert b == (p + b)[|p|..];
  }

  /** The core plugins are tried first, in fixed order. */
  lemma CoreFirst(es: seq<Entry>)
    ensures |LoadOrder(es)| >= |CorePlugins|
    ensures forall i :: 0 <= i < |CorePlugins| ==> LoadOrder(es)[i] == "plugins." + CorePlugins[i]
  {
  }

  // ---------------------------------------------------------------------------
  // Construction, reload and listings
  // ---------------------------------------------------------------------------

  /** `_register_core_commands` on the given state. */
  function SeedCore(m: Manager): (r: Manager)
    requires Valid(m)
    ensures Valid(r)
  {
    var m1 := RegisterCommand(m, CoreNames[0], ShowHelp);
    var m2 := RegisterCommand(m1, CoreNames[1], ListPlugins);
    RegisterCommand(m2, CoreNames[2], ReloadPlugins)
  }

  /** A fresh manager: empty registries with the three core commands. */
  function New(v: Variant): (m: Manager)
    ensures Valid(m)
    ensures m.commands.keys == CoreNames && m.plugins.keys == []
  {
    var m := Manager(v, OrderedDict.Empty(), map[], OrderedDict.Empty(), [], []);
    SeededKeys(m);
    SeedCore(m)
  }

  lemma SeededKeys(m: Manager)
    requires Valid(m) && m.commands.keys == []
    ensures SeedCore(m).commands.keys == CoreNames
    ensures SeedCore(m).commands.vals == CoreTable()
  {
    CoreNamesLowerDistinct();
    RegisterThree(m, CoreNames[0], CoreNames[1], CoreNames[2]);
    assert CoreNames == [CoreNames[0], CoreNames[1], CoreNames[2]];
  }

  /** The core names are lower-case and pairwise different. */
  lemma CoreNamesLowerDistinct()
    ensures forall i :: 0 <= i < |CoreNames| ==> Lower(CoreNames[i]) == CoreNames[i]
    ensures CoreNames[0] != CoreNames[1] && CoreNames[0] != CoreNames[2] && CoreNames[1] != CoreNames[2]
  {
    LowerOfLower(CoreNames[0]);
    LowerOfLower(CoreNames[1]);
    LowerOfLower(CoreNames[2]);
    assert |CoreNames[0]| == 4 && |CoreNames[1]| == 7 && |CoreNames[2]| == 6;
  }

  /** Registering three different lower-case names into an empty table keeps them in that order. */
  lemma RegisterThree(m: Manager, h: string, p: string, l: string)
    requires Valid(m) && m.commands.keys == []
    requires Lower(h) == h && Lower(p) == p && Lower(l) == l
    requires h != p && h != l && p != l
    ensures var r := RegisterCommand(RegisterCommand(RegisterCommand(m, h, ShowHelp), p, ListPlugins), l, ReloadPlugins);
            r.commands.keys == [h, p, l]
            && r.commands.vals == map[h := ShowHelp, p := ListPlugins, l := ReloadPlugins]
  {
    assert m.commands == OrderedDict.Empty();
    var m1 := RegisterCommand(m, h, ShowHelp);
    var m2 := RegisterCommand(m1, p, ListPlugins);
    var m3 := RegisterCommand(m2, l, ReloadPlugins);
    assert m1.commands == OrderedDict.Put(OrderedDict.Empty(), h, ShowHelp);
    assert m2.commands == OrderedDict.Put(m1.commands, p, ListPlugins);
    assert m3.commands == OrderedDict.Put(m2.commands, l, ReloadPlugins);
    OrderedDict.PutThree(h, p, l, ShowHelp, ListPlugins, ReloadPlugins);
  }

  /** The registry `_register_core_commands` leaves in an empty manager. */
  function CoreTable(): map<string, Handler>
  {
    map[CoreNames[0] := ShowHelp, CoreNames[1] := ListPlugins, CoreNames[2] := ReloadPlugins]
  }

  /** The state `reload_plugins` starts loading from: everything cleared, core commands re-seeded. */
  function Cleared(m: Manager): (r: Manager)
    ensures Valid(r)
    ensures r.commands.keys == CoreNames && r.plugins.keys == [] && r.eventHandlers == map[]
    ensures r.commands.vals == CoreTable()
    ensures r.variant == m.variant && r.log == m.log
  {
    var m0 := m.(commands := OrderedDict.Empty(), eventHandlers := map[], plugins := OrderedDict.Empty());
    SeededKeys(m0);
    SeedCore(m0)
  }

  /** `reload_plugins`: clear, re-seed, load again. Only modules of the load order end up recorded. */
  function Reload(m: Manager, env: Env): (r: Manager)
    ensures Valid(r)
    ensures r.variant == m.variant
    ensures forall k :: k in r.plugins.vals ==> k in LoadOrder(env.entries)
    ensures forall k :: k in r.plugins.vals <==> k in LoadOrder(env.entries) && Loads(m.variant, env.modules(k))
  {
    var m0 := Cleared(m);
    assert forall k :: k !in m0.plugins.vals;
    LoadPlugins(m0, env)
  }

  predicate NotCore(k: string)
  {
    k !in CoreNames
  }

  /** `show_help`'s list: the registry keys in sorted order, without the three core commands. */
  function HelpNames(m: Manager): (r: seq<string>)
    ensures SortedStrings(r)
    ensures forall c :: c in r <==> c in m.commands.keys && c !in CoreNames
  {
    var ks := Filter(m.commands.keys, NotCore);
    var r := SortStrings(ks);
    SameMembers(r, ks);
    r
  }

  /**
   `list_plugins`: "No plugins loaded" when empty; otherwise the names, sorted
   in the `Core` variant and in load order in the `Legacy` variant.
   */
  function PluginListing(m: Manager): (r: seq<Message>)
    ensures m.plugins.keys == [] ==> r == [NoPlugins]
    ensures m.plugins.keys != [] && m.variant == Core ==>
              |r| == 1 && r[0].PluginList? && SortedStrings(r[0].names)
              && multiset(r[0].names) == multiset(m.plugins.keys)
    ensures m.plugins.keys != [] && m.variant == Legacy ==> r == [PluginList(m.plugins.keys)]
  {
    if m.plugins.keys == [] then [NoPlugins]
    else if m.variant == Core then [PluginList(SortStrings(m.plugins.keys))]
    else [PluginList(m.plugins.keys)]
  }
}
