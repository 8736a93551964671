# dockevOS shell core in Dafny

This project models the command-dispatch and plugin-lifecycle core of the
dockevOS shell. It covers:

- the interactive shell `ContainerOSMVP` in `dockevos/__main__.py` and its
  older copy `container-os.py`. That means the event bus, the command map with
  its built-in table, the `_execute_command` step, the file-plugin manager,
  the usage tracker, reload and the read loop;
- the two package plugin managers, `plugins/plugin_manager.py` (called the
  `Legacy` variant) and `plugins/plugin_manager_core.py` (the `Core` variant);
- the error collector in `plugins/error_handler`;
- the command-history buffer in `plugins/system_log`;
- the fallback table and choice protocol in `plugins/alternative_plugin`;
- the sample plugin `plugins/sample_plugin.py`, used for end-to-end lemmas.

The model is functional. Every registry is an immutable value: a `map`, a
`seq`, or `OrderedDict.Dict`, which pairs a map with its keys in insertion
order, the way a Python `dict` keeps them. Every operation is a pure function
from the old state to the new one, and what it prints is kept as a list of
messages without the exact wording.

Code the model cannot see is described by data or passed in as a parameter:

- A file plugin is a `Shell.Unit`. It says whether importing it raises, and
  which registry changes its `register`/`unregister` make before they return
  or raise.
- A package plugin is a `PackageManager.Module`. It gives its import error,
  what its `setup()` does, and its `commands`/`event_handlers` attributes.
- Command handlers, subscribers and event handlers are opaque numbers. What
  they return or raise comes from an `Env` value.

## Modules

| file | module | models |
|---|---|---|
| `common.dfy` | `Common` | `Option`, Python values, `str.lower/split/strip`, `int()`, slices, `sorted` on strings |
| `ordered_dict.dfy` | `OrderedDict` | insertion-ordered `dict` with string keys |
| `fan_out.dfy` | `FanOut` | the fault-isolated loop over handlers shared by `emit_event` and `_notify_handlers` |
| `event_bus.dfy` | `EventBus` | subscriber lists and the 100-event history deque |
| `usage_tracker.dfy` | `UsageTracker` | `track_command`, `get_stats` |
| `shell.dfy` | `Shell` | `ContainerOSMVP` and its `PluginManager`, both copies |
| `error_handler.dfy` | `ErrorHandler` | `ErrorHandler` |
| `package_manager.dfy` | `PackageManager` | both package `PluginManager`s |
| `system_log.dfy` | `SystemLog` | the history side of `SystemLog` |
| `alternative_plugin.dfy` | `AlternativePlugin` | `AlternativePlugin` |
| `sample_plugin.dfy` | `SamplePlugin` | `register`/`unregister`, `hello`, `time` |

## Model

| member | source | states |
|---|---|---|
| EventBus.Subscribe | dockevos/__main__.py:76-77 | the subscriber is appended to its event type's list; every other type's list and the history are unchanged |
| EventBus.Remember | dockevos/__main__.py:61-65 | appending to the history gives the newest 100 of the old history plus the event, with the event last |
| EventBus.Emit | dockevos/__main__.py:63-67 | emit records the event as the newest history entry, keeps at most 100 entries, and delivers to exactly that type's subscribers in subscription order |
| EventBus.RememberAllKeepsNewest | dockevos/__main__.py:61-65 | after any run of emits, the history is the newest 100 of all events ever emitted, oldest first |
| EventBus.OneHundredFiftyEvents | dockevos/__main__.py:61 | 150 emits from an empty history leave exactly the last 100 events |
| FanOut.DeliverCallsAllInOrder | dockevos/__main__.py:67-74 | every handler is called once, in registration order, whatever the earlier ones raised |
| FanOut.DeliverLogsFaults | plugins/plugin_manager.py:168-176 | exactly the raising handlers are logged, once each, in call order |
| FanOut.DeliverQuiet | plugins/error_handler/__init__.py:92-98 | when no handler raises, nothing is logged |
| Shell.New | dockevos/__main__.py:530-544 | construction installs the built-in table, subscribes the tracker to `command.executed` only, and leaves no plugins |
| Shell.BuiltinCount | container-os.py:322-339 | the older copy installs exactly 14 built-in names and the newer one 15; `listen` exists only in the newer one |
| Shell.BuiltinAliases | container-os.py:322-339 | quit/exit, containers/ps, status/info and voice/speak share one handler each |
| Shell.ShellEmit | dockevos/__main__.py:63-74 | the shell's emit appends one event to the history and only the tracker subscriber can change tracker state; commands, plugins and `running` are unchanged |
| Shell.EmitCountsOnce | dockevos/__main__.py:577-580 | emitting `command.executed` for a line counts its first token exactly once, whoever else is subscribed |
| Shell.NotifyCounts | dockevos/__main__.py:67-74 | delivering an event adds one to the token's count per tracker occurrence in the subscriber list and changes no other count |
| Shell.CommandToken | dockevos/__main__.py:577-580 | the tracked token is the first whitespace token of the `command` field; the handler raises when that field is missing, is not a string or has no tokens |
| Shell.RegisterCommand | dockevos/__main__.py:566-569 | after `register_command(n, h)`, `commands[n] == h` whatever was there before, and every other name is unchanged |
| Shell.UnregisterCommand | dockevos/__main__.py:571-575 | `unregister_command(n)` removes `n`, changes no other name, and is a complete no-op when `n` is absent |
| Shell.RegisterUnregisterRestores | dockevos/__main__.py:566-575 | registering a free name and then unregistering it restores the command map |
| Shell.RegisterUnregisterLoses | dockevos/__main__.py:566-575 | registering over a taken name and then unregistering it loses the name entirely |
| Shell.Call | container-os.py:249-252 | a plugin's `register`/`unregister` raises exactly when it has a fault, with that exception; the actions before the fault point stay in effect, so every command ends bound as the last of those actions naming it left it (compared with the reference `BindingAfter`) |
| Shell.RunActionsBinding | dockevos/__main__.py:566-575 | running registry actions in order binds each command as the last action naming it says, and leaves a command no action names as it was |
| Shell.RegisteredBeforeFaultStays | container-os.py:249-252 | a command registered before the fault point, and not re-registered or unregistered before it, is still bound to that callable after the call: nothing is rolled back |
| Shell.UnloadPlugin | container-os.py:262-269 | unloading an unknown name changes nothing and emits nothing; a known name has its `unregister` called if present, then its record deleted and `plugin.unloaded` emitted; without `unregister` the commands stay |
| Shell.LoadPlugin | dockevos/__main__.py:458-484 | a load succeeds exactly when the old copy unloads cleanly and the module imports and has a `register` that returns; success records the unit and emits `plugin.loaded`, failure records nothing |
| Shell.LoadFresh | dockevos/__main__.py:468-484 | once no plugin of that name is loaded, the load succeeds exactly when the module imports and `register` returns; other records are untouched |
| Shell.Record | dockevos/__main__.py:477-479 | a successful load files the unit under its name and announces it, leaving commands and the other records alone |
| Shell.LoadAll | dockevos/__main__.py:495-499 | for a run of files with distinct stems, each file not loaded before ends up recorded exactly when it loads, whatever the other files did; records of stems outside the run are kept; every record is an old one or a file of the run |
| Shell.LoadPluginRecords | dockevos/__main__.py:458-484 | after one load, each record is the old one or the unit just loaded |
| Shell.UnloadAll | container-os.py:572-574 | unloading a list of names without a raising `unregister` leaves none of them loaded and adds no record |
| Shell.ReloadPlugins | container-os.py:569-579 | reload unloads every loaded name and loads the directory again; when no `unregister` raises, every directory file (stems distinct) is recorded exactly when it loads, only directory files are recorded, and the reported count is the number loaded |
| Shell.ReloadEmptyKeepsCommands | container-os.py:569-579 | with no plugins loaded and none on disk, reload leaves the command map untouched and reports 0 |
| Shell.FaultAfterRegisterKeepsCommand | container-os.py:249-260 | a `register` that registers a command and raises at any later point, with no action in between naming that command, leaves the plugin unrecorded, reports the load error, and keeps the command in place |
| Shell.MissingRegisterNotRecorded | dockevos/__main__.py:475-482 | a module without `register` is reported, not recorded, and the shell is otherwise unchanged |
| Shell.RunHandler | dockevos/__main__.py:649-655 | a plugin handler's outcome comes from the handler alone; with the built-ins' outcomes taken from the environment, only `exit` clears `running` and only `reload` touches the registries |
| Shell.Report | dockevos/__main__.py:657-660 | a fault is reported as a command error, a truthy result is printed, and a falsy result prints nothing |
| Shell.Execute | dockevos/__main__.py:633-662 | an all-space line does nothing; otherwise `command.executed` is emitted before the exact lookup; an unknown name prints "Unknown command" and runs nothing |
| Shell.Lookup | dockevos/__main__.py:648 | lookup is exact, case-sensitive key membership |
| Shell.ExecuteCounts | dockevos/__main__.py:641-648 | every non-empty line adds one to its first token's count, even when that name is unknown; a line is counted once because the built-ins do not dispatch further lines |
| Shell.ExecuteFaultReported | dockevos/__main__.py:659-660 | a raising handler is reported as a command error, and the shell keeps running with its commands unchanged |
| Shell.ExecuteUnknown | dockevos/__main__.py:661-662 | an unknown name leaves commands and `running` unchanged and ends with "Unknown command" |
| Shell.CapitalisedIsUnknown | dockevos/__main__.py:648 | lookup is case-sensitive: a name starting with a capital letter is unknown to a fresh shell and does not stop it |
| Shell.RunLoop | container-os.py:389-406 | the loop reads at most the inputs given, and a stopped shell reads none |
| Shell.LoopStopsOnlyWhen | container-os.py:389-406 | the loop stops only when `running` is false, on end of input or interrupt, or when input runs out; a read error never stops it |
| Shell.ExitEndsLoop | container-os.py:491-495 | a line bound to `_cmd_exit` clears `running` and is the last line read |
| Shell.QuitStopsFreshShell | container-os.py:326-327 | a fresh shell reading `quit` stops after that line |
| UsageTracker.Track | dockevos/__main__.py:509-515 | tracking adds one to that command's count and changes no other count; the alias hint fires exactly when the new count is 5 |
| UsageTracker.TrackAllCountsAndHints | dockevos/__main__.py:509-515 | over any run, each count grows by its number of occurrences, and a command's hint fires once if the run carries its count from below 5 to 5 or more, never otherwise |
| UsageTracker.FiveThenSix | dockevos/__main__.py:513-515 | five uses of `ps` from zero give one hint, and the sixth gives none |
| UsageTracker.BumpValid | dockevos/__main__.py:511 | counting keeps one entry per command, each at least 1 |
| UsageTracker.Insert | dockevos/__main__.py:524 | inserting into a descending list keeps it descending and adds exactly that entry |
| UsageTracker.InsertStable | dockevos/__main__.py:524 | the inserted entry goes in front of the entries with an equal count |
| UsageTracker.SortDesc | dockevos/__main__.py:524 | the sort by count, descending, is a permutation of its input |
| UsageTracker.SortDescStable | dockevos/__main__.py:524 | entries with equal counts keep their first-seen order, as Python's stable `sorted` does |
| UsageTracker.GetStats | dockevos/__main__.py:517-525 | `commands_used` is the number of distinct commands, `total_commands` the sum of counts, and `most_used` the first min(5, n) of a descending list drawn from the counts |
| UsageTracker.MostUsedIsStableTop | dockevos/__main__.py:524 | `most_used` is the top 5 of the stable sort: every entry left out counts no more than any kept one |
| UsageTracker.TrackAllStats | dockevos/__main__.py:509-525 | tracking a run adds its length to `total_commands` and each new token as one entry |
| UsageTracker.TotalIsLinesTracked | dockevos/__main__.py:520-523 | from scratch, `total_commands` is the number of lines tracked and the entries are the distinct tokens |
| OrderedDict.Put | plugins/plugin_manager.py:116-118 | assigning a key sets its value, changes no other value, keeps a present key's position and puts a new key last |
| OrderedDict.Remove | container-os.py:268 | deleting a key drops it and keeps the others in their order |
| OrderedDict.PutThree | plugins/plugin_manager.py:32-36 | three different keys put into an empty dict come out in insertion order |
| PackageManager.RegisterCommand | plugins/plugin_manager.py:116-118 | the handler is stored under the lower-cased name, overwriting any old one; other keys are unchanged; a new key goes last |
| PackageManager.RegisterEventHandler | plugins/plugin_manager.py:120-124 | the handler is appended to the event's list, which is created on first use; other events are unchanged |
| PackageManager.RegisterCommands | plugins/plugin_manager_core.py:112-114 | after registering a `commands` dict, each lower-cased name is bound to the callable of its last entry (reference `LastBound`), every other name keeps its binding, and the keys are the old ones plus the new names |
| PackageManager.RegisterEventHandlers | plugins/plugin_manager_core.py:115-117 | after registering an `event_handlers` dict, each event's list is its old list followed by that event's callables from the dict, in dict order |
| PackageManager.RegisterAttrs | plugins/plugin_manager.py:79-87 | a recorded `None` registers nothing; an object has its `commands` bound and its `event_handlers` appended, a missing attribute counting as an empty dict; records and the log are unchanged |
| PackageManager.Resolve | plugins/plugin_manager.py:126-155 | an exact lower-cased key wins; otherwise exactly one prefix match is unique, several are ambiguous (listed in registry order), and none is not found |
| PackageManager.UniquePrefixRuns | plugins/plugin_manager.py:141-147 | when exactly one key has the input as prefix, that key is resolved |
| PackageManager.Execute | plugins/plugin_manager_core.py:141-154 | exact or unique matches run their handler; an ambiguous input prints the candidates and gives `False`; no match gives `False` and runs nothing |
| PackageManager.Call | plugins/plugin_manager_core.py:156-164 | a raising handler is logged with its context and gives `False`; a returning one gives its value and leaves the state alone |
| PackageManager.ExactBeatsPrefix | plugins/plugin_manager.py:131-133 | an exact key runs even when longer keys share it as a prefix |
| PackageManager.EmitEvent | plugins/plugin_manager.py:164-176 | an event without handlers changes nothing; otherwise the old log is kept and followed by one entry per raising handler, in registration order, each carrying that handler's exception and the `{event, handler}` context |
| PackageManager.EmitCallsAllInOrder | plugins/plugin_manager.py:168-176 | `emit_event` is the fan-out over the event's handlers: each is called once in registration order whatever the others raise, and the log gains exactly the entries of the handlers that raised |
| PackageManager.ShortName | plugins/plugin_manager.py:77 | the short name is the part of the module name after its last dot |
| PackageManager.Recorded | plugins/plugin_manager_core.py:100-108 | the `Core` variant always records an object, falling back to the module itself; the `Legacy` variant records only modules with `setup()`, keeping a `None` result |
| PackageManager.LoadPlugin | plugins/plugin_manager_core.py:91-120 | a loaded name is skipped (the `Core` variant changes nothing at all); a new module is recorded exactly when it loads, and then its object's `commands` and `event_handlers` are registered; a failing import or `setup()` adds one log entry with the `{plugin, action: load}` context and changes no registry; old records are never changed |
| PackageManager.LoadNew | plugins/plugin_manager_core.py:97-120 | for a module that imported and is not loaded: `setup()` raising is logged and records nothing; otherwise the object `Recorded` names is recorded and registered, or, in the `Legacy` variant without `setup`, nothing happens |
| PackageManager.LoadAll | plugins/plugin_manager_core.py:70-89 | loading a list keeps every old record; a name not loaded before ends up recorded exactly when it is in the list and its module loads, whatever the other modules raised, and it is recorded as `Recorded` says |
| PackageManager.LoadPlugins | plugins/plugin_manager_core.py:67-89 | `load_plugins` keeps old records, and a module not loaded before ends up recorded exactly when it is in the load order and loads |
| PackageManager.EligibleTried | plugins/plugin_manager_core.py:70-87 | `plugins.<n>` is tried exactly when `n` is a core plugin or the name of a directory that is not a core plugin, does not start with `_` and has `__init__.py` |
| PackageManager.CoreFirst | plugins/plugin_manager_core.py:70-76 | the three core plugins are tried first, in fixed order |
| PackageManager.New | plugins/plugin_manager_core.py:35-55 | a fresh manager has no plugins and exactly the commands help, plugins, reload, in that order |
| PackageManager.SeededKeys | plugins/plugin_manager.py:32-36 | seeding an empty registry gives exactly help, plugins, reload bound to their own handlers |
| PackageManager.Cleared | plugins/plugin_manager.py:97-108 | reload starts from empty plugins and event handlers and exactly the three core commands |
| PackageManager.Reload | plugins/plugin_manager.py:93-114 | after reload, a module is recorded exactly when it is in the load order and loads |
| PackageManager.HelpNames | plugins/plugin_manager_core.py:170-176 | help lists the registry keys in sorted order, except help, plugins and reload |
| PackageManager.PluginListing | plugins/plugin_manager_core.py:178-185 | with no plugins it says so; otherwise `Core` lists the names sorted and `Legacy` lists them in load order |
| ErrorHandler.New | plugins/error_handler/__init__.py:14-18 | a fresh collector knows no commands and has no handlers |
| ErrorHandler.Dedup | plugins/error_handler/__init__.py:66-67 | `list(set(xs))` has each element of `xs` exactly once |
| ErrorHandler.RegisterCommands | plugins/error_handler/__init__.py:64-67 | the known commands become the old ones together with the new ones, without duplicates |
| ErrorHandler.RegisterCommandsTwice | plugins/error_handler/__init__.py:64-67 | registering the same names again keeps the same members and length |
| ErrorHandler.Ratio | plugins/error_handler/__init__.py:74-79 | similarity is `2M/T` as an exact fraction, and 1 for two empty strings |
| ErrorHandler.Best | plugins/error_handler/__init__.py:74-79 | the pick has similarity at least 0.6 and no candidate above the cutoff outranks it; nothing is picked exactly when no candidate reaches the cutoff |
| ErrorHandler.BestUnique | plugins/error_handler/__init__.py:74-79 | the ranking has one maximum, so the suggestion does not depend on the order of the known commands |
| ErrorHandler.SuggestCorrection | plugins/error_handler/__init__.py:69-80 | no known commands gives `None`; a suggestion is made exactly when some lower-cased known command reaches the cutoff, and it is such a command that no other passing command outranks |
| ErrorHandler.ExactIsSuggested | plugins/error_handler/__init__.py:74-80 | a word equal to a known command, ignoring case, is suggested as that command lower-cased |
| ErrorHandler.RegisterHandler | plugins/error_handler/__init__.py:100-105 | the handler is appended to its event type's list; other types are unchanged |
| ErrorHandler.NotifyHandlers | plugins/error_handler/__init__.py:92-98 | every handler of the type is called once with the data, in registration order; each exception is logged and swallowed; an unregistered type does nothing |
| ErrorHandler.MakeRecord | plugins/error_handler/__init__.py:82-87 | the record carries the error's type and message, and the context defaults to `{}` |
| ErrorHandler.LogError | plugins/error_handler/__init__.py:82-90 | the record is logged, then the `error_occurred` handlers are notified once each |
| ErrorHandler.LogErrorReachesEveryHandler | plugins/error_handler/__init__.py:89-98 | each `error_occurred` handler receives the record, whatever the earlier ones raise |
| SystemLog.New | plugins/system_log/__init__.py:197-199 | a fresh log has an empty history |
| SystemLog.Commands | plugins/system_log/__init__.py:139-145 | the plugin exposes exactly logs, history and system_info |
| SystemLog.LogCommand | plugins/system_log/__init__.py:97-120 | the entry carries the given fields and becomes the newest element; the history is at most 1000 long and is the newest 1000 of the old history plus the entry |
| SystemLog.LogAllKeepsNewest | plugins/system_log/__init__.py:110-115 | after any run of logged commands, the history is the newest 1000 of everything logged, oldest first |
| SystemLog.GetHistory | plugins/system_log/__init__.py:135-137 | the result is a suffix of the history: the last min(limit, n) entries for a positive limit, the whole history for 0, and Python slice semantics for a negative limit |
| SystemLog.CmdShowHistory | plugins/system_log/__init__.py:162-179 | without arguments it shows the last 10; an integer argument sets the limit; an argument `int()` rejects is logged and gives `False` |
| SystemLog.HistoryOfNumber | plugins/system_log/__init__.py:165-166 | `history N` for a positive decimal `N` shows the last min(N, n) entries |
| SystemLog.LoggedThenShown | plugins/system_log/__init__.py:110-137 | the command just logged is what `get_command_history(1)` returns |
| AlternativePlugin.New | plugins/alternative_plugin/__init__.py:23-48 | the table maps shell_assistant to [manual_installer, package_manager] and voice_service to [text_input], in that order |
| AlternativePlugin.GetAlternatives | plugins/alternative_plugin/__init__.py:50-52 | a known plugin gives its configured list, any other name `[]` |
| AlternativePlugin.ConfiguredAlternatives | plugins/alternative_plugin/__init__.py:23-52 | the constructed table answers the two configured plugins and gives `[]` for every other name |
| AlternativePlugin.Interpret | plugins/alternative_plugin/__init__.py:70-85 | an empty answer cancels; k with 1 ≤ k ≤ n picks the k-th; n+1 cancels; any other number or a non-number asks again |
| AlternativePlugin.Answers | plugins/alternative_plugin/__init__.py:70-85 | each input line is read on its own, and a pick is always in range |
| AlternativePlugin.Decide | plugins/alternative_plugin/__init__.py:66-85 | the first answer that does not ask again decides, after all the earlier lines asked again; input runs out exactly when every answer asks again |
| AlternativePlugin.Choose | plugins/alternative_plugin/__init__.py:66-85 | the result is fixed by the first decisive line, and a picked alternative is one offered |
| AlternativePlugin.SuggestAlternative | plugins/alternative_plugin/__init__.py:54-85 | with no alternatives it gives `None` without reading input; otherwise it runs the prompt loop |
| AlternativePlugin.NumberedAnswer | plugins/alternative_plugin/__init__.py:76-80 | typing the number of an alternative picks it after one line; typing one more than the count cancels |
| AlternativePlugin.Commands | plugins/alternative_plugin/__init__.py:102-107 | the plugin exposes exactly alternatives and use |
| AlternativePlugin.Entries | plugins/alternative_plugin/__init__.py:115-121 | the listing shows every table entry with its list, in table order |
| AlternativePlugin.CmdListAlternatives | plugins/alternative_plugin/__init__.py:109-135 | without arguments it lists every plugin's alternatives; an argument naming no configured plugin gives `False`; a known one lists that plugin only |
| AlternativePlugin.FirstNamed | plugins/alternative_plugin/__init__.py:152 | the first alternative whose lower-cased name matches is chosen, or none when no name matches |
| AlternativePlugin.LoadAlternative | plugins/alternative_plugin/__init__.py:87-100 | a successful load returns the instance; a failure is logged with its context and gives `None` |
| AlternativePlugin.Select | plugins/alternative_plugin/__init__.py:139-155 | fewer than two arguments, an unknown plugin or an unknown alternative is rejected; otherwise names are compared lower-cased and the first match is selected |
| AlternativePlugin.CmdUseAsWritten | plugins/alternative_plugin/__init__.py:158-167 | as written, a selected alternative that loads to a truthy instance makes the command raise `NameError`; every other path returns `False` |
| AlternativePlugin.UseNeverSucceedsAsWritten | plugins/alternative_plugin/__init__.py:157-167 | as written, `use` never returns `True` and never records an alternative |
| AlternativePlugin.UseRaisesOnWorkingLoad | plugins/alternative_plugin/__init__.py:160-163 | `use shell_assistant manual_installer` with a working load raises `NameError` |
| AlternativePlugin.CmdUse | plugins/alternative_plugin/__init__.py:137-167 | corrected: `use` returns `True` exactly when a selected alternative loads to a truthy instance, which is then recorded under the lower-cased plugin name |
| AlternativePlugin.UseIgnoresCase | plugins/alternative_plugin/__init__.py:143-152 | `use Voice_Service TEXT_INPUT` selects and records the text-input fallback |
| SamplePlugin.RegisterAddsHelloAndTime | plugins/sample_plugin.py:17-18 | `register` returns and sets exactly hello and time |
| SamplePlugin.UnregisterRemovesHelloAndTime | plugins/sample_plugin.py:24-25 | `unregister` returns and removes exactly hello and time |
| SamplePlugin.RegisterUnregisterRoundTrip | plugins/sample_plugin.py:17-25 | register then unregister restores the registry when neither name was present; otherwise hello and time are gone entirely and everything else is restored |
| SamplePlugin.FreshShellLacksHelloAndTime | container-os.py:322-339 | hello and time are not built-in names in either copy |
| SamplePlugin.LoadSample | dockevos/__main__.py:458-484 | loading the sample plugin succeeds, records it, and binds hello and time to its callables |
| SamplePlugin.LoadIntoFreshShell | dockevos/__main__.py:458-484 | in a fresh shell the plugin adds exactly two commands and every built-in keeps its handler |
| SamplePlugin.HelloDispatches | dockevos/__main__.py:633-660 | once loaded, a `hello` line emits `command.executed` and reports what the plugin's callable produced for the remaining tokens |
| SamplePlugin.ReloadReplaces | dockevos/__main__.py:464-466 | loading the plugin a second time unloads the old copy, so the new callables replace both commands and one record remains |
| SamplePlugin.Greeting | plugins/sample_plugin.py:7-10 | the greeting is "Hello, " + the addressee + "!" |
| SamplePlugin.GreetingNamesAddressee | plugins/sample_plugin.py:7-10 | the greeting names the first argument, or "World" when there are none |
| SamplePlugin.TimeText | plugins/sample_plugin.py:12-14 | the time text is a fixed prefix followed by the clock reading |
| Common.Lower | plugins/plugin_manager.py:118 | lower-casing keeps the length, turns each capital letter into its lower-case letter, and leaves every other character alone |
| Common.Split | dockevos/__main__.py:635 | `split()` gives non-empty tokens without whitespace (the ASCII characters `str.isspace()` accepts), and no tokens exactly for an all-space line |
| Common.SplitJoinSpaces | dockevos/__main__.py:635-639 | splitting space-joined words gives the words back |
| Common.Strip | container-os.py:395 | `strip()` is empty exactly for an all-space line and otherwise has no whitespace (as `str.isspace()` defines it on ASCII) at either end |
| Common.ParseIntOfIntToString | plugins/system_log/__init__.py:165 | `int(str(n)) == n` for every integer |
| Common.Newest | plugins/system_log/__init__.py:113-115 | the newest-n window has at most n elements |
| Common.NewestSuffix | plugins/system_log/__init__.py:113-115 | trimming early to the newest n does not change the newest n of a longer run |
| Common.PySliceFrom | plugins/system_log/__init__.py:137 | `s[start:]` is a suffix of the length Python gives for positive, zero and negative starts |
| Common.SortStrings | plugins/plugin_manager_core.py:173 | `sorted` gives a sorted permutation of its input |
| Common.Filter | plugins/plugin_manager.py:141 | a comprehension with a condition keeps exactly the members that pass |
| Common.FilterAppend | plugins/plugin_manager.py:141 | filtering a concatenation filters each part and concatenates, so kept elements stay in their order and keep their multiplicity |

## Left out

- Voice, Docker and system services (`VoiceService`, `DockerService`,
  `SystemService`). They are subprocess, microphone, Docker SDK and psutil
  I/O. Their commands appear only as outcomes supplied by `Shell.Env.builtin`.
- Module import mechanics (`importlib`, `spec_from_file_location`, globbing
  the plugin directory). A plugin is a value describing what importing it and
  calling its functions does. Directory order is the order of `Env.dir` or
  `Env.entries`.
- `async`/`await`. Everything runs sequentially, so each coroutine is a
  plain step.
- Exact message text, emoji, banners, help text, timestamps and
  `session_time`.
- Shell.RunHandler: does not model the calling convention. `_execute_command`
  calls a synchronous handler with a plain dict (dockevos/__main__.py:654),
  while the sample plugin's handlers read `event.data`
  (plugins/sample_plugin.py:8). Such a handler therefore raises at run time.
  The model takes each handler's outcome from `Env.run` instead of
  reproducing the call shapes, so `SamplePlugin.HelloDispatches` is stated
  for whatever the callable produces.
- Shell.RunHandler: the built-ins' outcomes come from `Env.builtin`. In
  dockevos/__main__.py, `_cmd_listen` passes recognised text that starts with
  a wake word back to `_execute_command` (dockevos/__main__.py:788-795). The
  model does not re-dispatch, so its claims that only `exit` clears
  `running` and only `reload` touches the registries hold for every line
  except a `listen` that hears a wake-word command.
- Shell.Execute: for the same reason, a `listen` line whose recognised text
  is re-dispatched can in the source stop the shell or reload plugins. The
  model's `running`, registry and history clauses do not cover that case.
- Shell.ExecuteCounts: a re-dispatched `listen` line counts a second token
  in the source. The model counts one token per line.
- Shell.LoadAll: states the outcome for each file only when the run's stems
  are distinct. Files globbed from one directory always have distinct stems.
  With a repeated stem, the later file unloads and replaces the earlier one.
- Shell.ReloadPlugins: states the outcome of reloading only when no
  `unregister` raises, and only for directory files with distinct stems, as
  for `Shell.LoadAll`.
- PackageManager.LoadAll: states which modules end up recorded, but not the
  combined registries after several plugins have registered over each other.
  `PackageManager.LoadPlugin` states the registries for one module.
- ErrorHandler.SuggestCorrection: similarity is stated relative to a
  parameter `matched`, the number of characters SequenceMatcher pairs up, and
  not to difflib's algorithm. `ExactIsSuggested` assumes only the three
  properties in `ErrorHandler.Sound`. Ratios are compared as exact fractions,
  not as floats.
- ErrorHandler.Dedup: `list(set(...))` has no specified order. The model
  picks one, and nothing about the result depends on it (`BestUnique`).
- Common.Lower: handles ASCII letters only, not Unicode case mapping.
- Common.Split: breaks on the ASCII characters `str.isspace()` accepts (space,
  tab, line feed, vertical tab, form feed, carriage return and 0x1C to 0x1F),
  not on non-ASCII whitespace such as U+0085, U+00A0 or U+2028.
- Common.Strip: strips the same ASCII whitespace as `Common.Split` and no
  non-ASCII whitespace.
- Common.ParseInt: accepts optional whitespace, a sign and decimal digits. It
  does not accept the underscores or non-ASCII digits that Python's `int()`
  also takes.
- UsageTracker.GetStats: leaves out `session_time`, a wall-clock value.
- SamplePlugin.TimeText: takes the formatted clock reading as a parameter.
- PackageManager.HelpNames: the `Legacy` `show_help` groups commands under
  plugin headings (plugins/plugin_manager.py:178-213). That is presentation.
  Both variants are modelled by the sorted list of names that are not core
  commands.
- PackageManager.EmitEvent: the `*args`/`**kwargs` passed to the handlers are
  not modelled. Which handlers raise comes from `Env.raisesOn`.
- Shell.UnloadPlugin: a plugin's `unregister` can only make the registry
  changes a `Shell.Action` describes, or raise. Arbitrary side effects of
  plugin code are not modelled.
- The file side of `SystemLog` and `ErrorHandler`: log-file setup,
  `get_recent_logs`, `cmd_show_logs`, `cmd_system_info`, `log_system_info`
  and the dynamic `_load_plugin_handlers`. These read files or psutil. The
  `except` branch of `log_command` is left out too: building the entry cannot
  raise in the model.
- The `register(event_bus, shell)` entry points of `plugins/error_handler`
  and `plugins/plugin_manager_core.py` only print and return the module's
  singleton. `setup()` in `plugins/system_log` and
  `plugins/alternative_plugin` only constructs the object, which
  `SystemLog.New` and `AlternativePlugin.New` model.
- The core services that the `Legacy` manager fetches again during reload
  (`get_hardware_analyzer`, `get_docker_manager`) are outside the model.
- `plugins/plugin_generator.py`, `plugins/plugin_generator/`,
  `plugins/shell_assistant`, `plugins/docker_manager`,
  `plugins/hardware_analyzer`, `plugins/system_info_plugin.py` and
  `plugins/advanced_plugin.py` are not part of this model. They are code
  generation, external tools, Docker and psutil calls. Two of them do not
  parse.
- Packaging and re-export glue (`setup.py`, `plugins/setup.py`, `run.py`,
  the package `__init__.py` files) and the import smoke test are not part of
  this model.

## Findings

| source | as written | input that shows it | evidently intended | confidence | as-written member | corrected member |
|---|---|---|---|---|---|---|
| plugins/alternative_plugin/__init__.py:160-163 | `cmd_use_alternative` calls `get_plugin_manager()`, a name the module never imports or defines | `use shell_assistant manual_installer` when loading the alternative gives a truthy instance: `NameError` is raised instead of recording it | record the instance in the plugin manager under the lower-cased plugin name and return `True` | high (not executed) | AlternativePlugin.CmdUseAsWritten | AlternativePlugin.CmdUse |

`AlternativePlugin.UseNeverSucceedsAsWritten` and
`AlternativePlugin.UseRaisesOnWorkingLoad` show the as-written command can
never return `True`. `AlternativePlugin.CmdUse` and
`AlternativePlugin.UseIgnoresCase` state the intended behaviour.
