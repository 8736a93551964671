/**
 `AlternativePlugin` of plugins/alternative_plugin/__init__.py: a fixed table
 of fallback implementations per plugin, the numbered choice protocol that
 picks one from console input, and the `alternatives` and `use` commands.
 Console input is a sequence of lines; importing and instantiating an
 alternative is an outcome supplied by the environment.
 */
module AlternativePlugin {
  import opened Common
  import OrderedDict
  import ErrorHandler

  datatype Alternative = Alternative(name: string, description: string, modulePath: string, className: string)

  /** The plugin object: its table in definition order and the records it logged. */
  datatype Plugin = Plugin(alternatives: OrderedDict.Dict<seq<Alternative>>, errors: seq<ErrorHandler.Record>)

  const ManualInstaller: Alternative :=
    Alternative("manual_installer", "Manual package installation guide",
                "plugins.alternative.manual_installer", "ManualInstaller")
  const PackageManager: Alternative :=
    Alternative("package_manager", "Basic package manager interface",
                "plugins.alternative.package_manager", "PackageManager")
  const TextInput: Alternative :=
    Alternative("text_input", "Fallback text input when voice is unavailable",
                "plugins.alternative.text_input", "TextInput")

  /** `_load_alternatives`: the table the constructor installs. */
  function Table(): OrderedDict.Dict<seq<Alternative>>
  {
    OrderedDict.Dict(["shell_assistant", "voice_service"],
                     map["shell_assistant" := [ManualInstaller, PackageManager], "voice_service" := [TextInput]])
  }

  function New(): (p: Plugin)
    ensures OrderedDict.Valid(p.alternatives) && p.errors == []
    ensures p.alternatives.keys == ["shell_assistant", "voice_service"]
    ensures p.alternatives.vals["shell_assistant"] == [ManualInstaller, PackageManager]
    ensures p.alternatives.vals["voice_service"] == [TextInput]
  {
    Plugin(Table(), [])
  }

  /** `get_alternatives(name)`: the configured list, `[]` for a plugin without one. */
  function GetAlternatives(p: Plugin, pluginName: string): (r: seq<Alternative>)
    ensures pluginName in p.alternatives.vals ==> r == p.alternatives.vals[pluginName]
    ensures pluginName !in p.alternatives.vals ==> r == []
  {
    if pluginName in p.alternatives.vals then p.alternatives.vals[pluginName] else []
  }

  /** The constructed table answers exactly the two configured plugins. */
  lemma ConfiguredAlternatives(pluginName: string)
    ensures GetAlternatives(New(), "shell_assistant") == [ManualInstaller, PackageManager]
    ensures GetAlternatives(New(), "voice_service") == [TextInput]
    ensures pluginName != "shell_assistant" && pluginName != "voice_service" ==>
              GetAlternatives(New(), pluginName) == []
  {
  }

  // ---------------------------------------------------------------------------
  // The choice protocol
  // ---------------------------------------------------------------------------

  /** How `suggest_alternative` ends: a pick, a cancel (`None`), or input running out (`EOFError`). */
  datatype Choice = Picked(alt: Alternative) | Cancelled | InputExhausted

  /** What one answer line means for a menu of `n` alternatives. */
  datatype Answer = Pick(index: nat) | Cancel | Reprompt

  /**
   One line read at the prompt: empty after stripping cancels; a number `k`
   with `1 <= k <= n` picks the `k`-th; `n + 1` cancels; any other number or a
   non-number asks again.
   */
  function Interpret(n: nat, line: string): (a: Answer)
    ensures a.Pick? ==> a.index < n && ParseInt(Strip(line)) == Some(a.index + 1)
    ensures Strip(line) == "" ==> a == Cancel
    ensures a == Cancel <==> Strip(line) == "" || ParseInt(Strip(line)) == Some(n + 1)
    ensures a == Reprompt <==>
              Strip(line) != "" && (ParseInt(Strip(line)).None? ||
                                    ParseInt(Strip(line)).value < 1 || ParseInt(Strip(line)).value > n + 1)
  {
    var c := Strip(line);
    if c == "" then Cancel
    else
      match ParseInt(c)
      case None => Reprompt
      case Some(k) =>
        if 0 <= k - 1 < n then Pick(k - 1)
        else if k - 1 == n then Cancel
        else Reprompt
  }

  /** What each input line means, in order. */
  function Answers(n: nat, lines: seq<string>): (r: seq<Answer>)
    ensures |r| == |lines| && forall i :: 0 <= i < |lines| ==> r[i] == Interpret(n, lines[i])
    ensures forall i :: 0 <= i < |r| && r[i].Pick? ==> r[i].index < n
  {
    if lines == [] then [] else [Interpret(n, lines[0])] + Answers(n, lines[1..])
  }

  /** The choice an answer that is not a re-prompt stands for. */
  function ChoiceOf(alts: seq<Alternative>, a: Answer): Choice
    requires a.Pick? ==> a.index < |alts|
  {
    match a
    case Pick(i) => Picked(alts[i])
    case Cancel => Cancelled
    case Reprompt => InputExhausted
  }

  /**
   The prompt loop over the answers still to come: re-prompted answers are
   skipped, the first other one decides. Returns the result and the number
   of lines read.
   */
  function Decide(alts: seq<Alternative>, answers: seq<Answer>): (r: (Choice, nat))
    requires forall i :: 0 <= i < |answers| && answers[i].Pick? ==> answers[i].index < |alts|
    ensures r.1 <= |answers|
    ensures r.0.Picked? ==> r.0.alt in alts
    ensures r.0 == InputExhausted <==> forall i :: 0 <= i < |answers| ==> answers[i] == Reprompt
    ensures r.0 == InputExhausted ==> r.1 == |answers|
    ensures r.0 != InputExhausted ==>
              && r.1 >= 1 && answers[r.1 - 1] != Reprompt
              && (forall i :: 0 <= i < r.1 - 1 ==> answers[i] == Reprompt)
              && r.0 == ChoiceOf(alts, answers[r.1 - 1])
    decreases |answers|
  {
    if answers == [] then (InputExhausted, 0)
    else
      match answers[0]
      case Pick(i) => (Picked(alts[i]), 1)
      case Cancel => (Cancelled, 1)
      case Reprompt =>
        var r := Decide(alts, answers[1..]);
        assert forall i :: 1 <= i < |answers| ==> answers[i] == answers[1..][i - 1];
        (r.0, r.1 + 1)
  }

  /** Line `k` is the first one that does not ask again. */
  predicate Decisive(n: nat, lines: seq<string>, k: nat)
  {
    && k < |lines|
    && Interpret(n, lines[k]) != Reprompt
    && forall i :: 0 <= i < k ==> Interpret(n, lines[i]) == Reprompt
  }

  /** The prompt loop over the console input. */
  function Choose(alts: seq<Alternative>, lines: seq<string>): (r: (Choice, nat))
    ensures r.1 <= |lines|
    ensures r.0.Picked? ==> r.0.alt in alts
    ensures r.0 == InputExhausted <==> forall i :: 0 <= i < |lines| ==> Interpret(|alts|, lines[i]) == Reprompt
    ensures r.0 != InputExhausted ==>
              r.1 >= 1 && Decisive(|alts|, lines, r.1 - 1) && r.0 == ChoiceOf(alts, Interpret(|alts|, lines[r.1 - 1]))
  {
    var answers := Answers(|alts|, lines);
    var r := Decide(alts, answers);
    assert r.0 != InputExhausted ==> answers[r.1 - 1] == Interpret(|alts|, lines[r.1 - 1]);
    r
  }

  /** `suggest_alternative(name)`: `None` without prompting when there is nothing to offer. */
  function SuggestAlternative(p: Plugin, pluginName: string, lines: seq<string>): (r: (Choice, nat))
    ensures GetAlternatives(p, pluginName) == [] ==> r == (Cancelled, 0)
    ensures GetAlternatives(p, pluginName) != [] ==> r == Choose(GetAlternatives(p, pluginName), lines)
    ensures r.0.Picked? ==> r.0.alt in GetAlternatives(p, pluginName)
  {
    var alts := GetAlternatives(p, pluginName);
    if alts == [] then (Cancelled, 0) else Choose(alts, lines)
  }

  /** Typing the number of an alternative picks it; typing one more than the count cancels. */
  lemma NumberedAnswer(p: Plugin, pluginName: string, k: nat, rest: seq<string>)
    requires GetAlternatives(p, pluginName) != []
    requires 1 <= k <= |GetAlternatives(p, pluginName)| + 1
    ensures var r := SuggestAlternative(p, pluginName, [IntToString(k)] + rest);
            r.1 == 1
            && (k <= |GetAlternatives(p, pluginName)| ==> r.0 == Picked(GetAlternatives(p, pluginName)[k - 1]))
            && (k == |GetAlternatives(p, pluginName)| + 1 ==> r.0 == Cancelled)
  {
    var line := IntToString(k);
    var n := |GetAlternatives(p, pluginName)|;
    ParseIntOfIntToString(k);
    StripOfNoSpaceEnds(line);
    assert Interpret(n, line) == if k <= n then Pick(k - 1) else Cancel;
    assert ([line] + rest)[0] == line;
    var r := Choose(GetAlternatives(p, pluginName), [line] + rest);
    if r.1 > 1 {
      assert false;
    }
  }

  // ---------------------------------------------------------------------------
  // Commands
  // ---------------------------------------------------------------------------

  /** `_register_commands`: the `commands` dict of the plugin object. */
  datatype Command = ListAlternatives | UseAlternative

  function Commands(): (r: map<string, Command>)
    ensures r.Keys == {"alternatives", "use"}
  {
    map["alternatives" := ListAlternatives, "use" := UseAlternative]
  }

  /** What `alternatives` prints: plugin names with their lists, in table order. */
  datatype Listing = Listing(ok: bool, shown: seq<(string, seq<Alternative>)>)

  /** Every table entry with its list, in key order. */
  function Entries(d: OrderedDict.Dict<seq<Alternative>>, keys: seq<string>): (r: seq<(string, seq<Alternative>)>)
    requires forall k :: k in keys ==> k in d.vals
    ensures |r| == |keys| && forall i :: 0 <= i < |keys| ==> r[i] == (keys[i], d.vals[keys[i]])
  {
    if keys == [] then [] else [(keys[0], d.vals[keys[0]])] + Entries(d, keys[1..])
  }

  /**
   `cmd_list_alternatives(*args)`: without arguments every plugin's list
   (`False` if the table is empty); with one, that plugin's list, looked up
   lower-cased, or `False` when it has none.
   */
  function CmdListAlternatives(p: Plugin, args: seq<string>): (r: Listing)
    requires OrderedDict.Valid(p.alternatives)
    ensures args == [] && p.alternatives.keys == [] ==> r == Listing(false, [])
    ensures args == [] && p.alternatives.keys != [] ==>
              r.ok && |r.shown| == |p.alternatives.keys|
              && forall i :: 0 <= i < |r.shown| ==>
                   r.shown[i] == (p.alternatives.keys[i], p.alternatives.vals[p.alternatives.keys[i]])
    ensures args != [] && GetAlternatives(p, Lower(args[0])) == [] ==> r == Listing(false, [])
    ensures args != [] && GetAlternatives(p, Lower(args[0])) != [] ==>
              r == Listing(true, [(Lower(args[0]), GetAlternatives(p, Lower(args[0])))])
  {
    if args == [] then
      if p.alternatives.keys == [] then Listing(false, [])
      else Listing(true, Entries(p.alternatives, p.alternatives.keys))
    else
      var name := Lower(args[0]);
      var alts := GetAlternatives(p, name);
      if alts == [] then Listing(false, []) else Listing(true, [(name, alts)])
  }

  /** The first alternative whose lower-cased name is `altName`. */
  function FirstNamed(alts: seq<Alternative>, altName: string): (r: Option<Alternative>)
    ensures r.Some? ==> exists i :: 0 <= i < |alts| && alts[i] == r.value && Lower(alts[i].name) == altName
                          && forall j :: 0 <= j < i ==> Lower(alts[j].name) != altName
    ensures r.None? <==> forall i :: 0 <= i < |alts| ==> Lower(alts[i].name) != altName
  {
    if alts == [] then None
    else if Lower(alts[0].name) == altName then Some(alts[0])
    else
      var r := FirstNamed(alts[1..], altName);
      assert forall i :: 1 <= i < |alts| ==> alts[i] == alts[1..][i - 1];
      if r.Some? then
        var i :| 0 <= i < |alts[1..]| && alts[1..][i] == r.value && Lower(alts[1..][i].name) == altName
                 && forall j :: 0 <= j < i ==> Lower(alts[1..][j].name) != altName;
        assert alts[i + 1] == r.value;
        r
      else r
  }

  /** Importing an alternative and instantiating its class: an instance (and its truth value) or an exception. */
  datatype Loaded = Instance(id: nat, truthy: bool) | LoadRaised(error: Exception)

  /** `load_alternative(name, alt)`: the instance, or `None` after logging the failure. */
  function LoadAlternative(p: Plugin, load: Alternative -> Loaded, pluginName: string, alt: Alternative): (r: (Plugin, Option<Loaded>))
    ensures load(alt).Instance? ==> r == (p, Some(load(alt)))
    ensures load(alt).LoadRaised? ==>
              r.1 == None && r.0.alternatives == p.alternatives
              && r.0.errors == p.errors + [ErrorHandler.MakeRecord(load(alt).error, Some(LoadContext(pluginName, alt)))]
  {
    match load(alt)
    case Instance(_, _) => (p, Some(load(alt)))
    case LoadRaised(e) => (p.(errors := p.errors + [ErrorHandler.MakeRecord(e, Some(LoadContext(pluginName, alt)))]), None)
  }

  function LoadContext(pluginName: string, alt: Alternative): map<string, Val>
  {
    map["action" := StrVal("load_alternative"), "plugin" := StrVal(pluginName), "alternative" := StrVal(alt.name)]
  }

  /** What `use` did: the plugin object, the handler's outcome, and the plugin manager's plugin records by name. */
  datatype Used = Used(p: Plugin, outcome: Outcome, installed: map<string, nat>)

  /** The part of `cmd_use_alternative` before the plugin manager is touched. */
  datatype Selection = Rejected | Selected(pluginName: string, alt: Alternative)

  /** Argument checks: two arguments, a plugin with alternatives, an alternative of that name. */
  function Select(p: Plugin, args: seq<string>): (r: Selection)
    ensures |args| < 2 ==> r == Rejected
    ensures r.Selected? ==>
              (|args| >= 2 && r.pluginName == Lower(args[0])
               && r.alt in GetAlternatives(p, r.pluginName) && Lower(r.alt.name) == Lower(args[1]))
    ensures |args| >= 2 && FirstNamed(GetAlternatives(p, Lower(args[0])), Lower(args[1])).None? ==> r == Rejected
    ensures |args| >= 2 && FirstNamed(GetAlternatives(p, Lower(args[0])), Lower(args[1])).Some? ==>
              r == Selected(Lower(args[0]), FirstNamed(GetAlternatives(p, Lower(args[0])), Lower(args[1])).value)
  {
    if |args| < 2 then Rejected
    else
      var pluginName := Lower(args[0]);
      var alts := GetAlternatives(p, pluginName);
      if alts == [] then Rejected
      else
        match FirstNamed(alts, Lower(args[1]))
        case None => Rejected
        case Some(a) => Selected(pluginName, a)
  }

  /** The exception evaluating `get_plugin_manager()` raises in this module, which never imports it. */
  const UndefinedPluginManager: Exception := Exception("NameError", "name 'get_plugin_manager' is not defined")

  /**
   `cmd_use_alternative(*args)` as written: after a successful load it calls
   `get_plugin_manager`, a name the module does not define, so the handler
   raises instead of recording the alternative.
   */
  function CmdUseAsWritten(p: Plugin, load: Alternative -> Loaded, installed: map<string, nat>, args: seq<string>): (r: Used)
    ensures Select(p, args).Rejected? ==> r == Used(p, Returned(BoolVal(false)), installed)
    ensures r.installed == installed
    ensures r.outcome.Raised? <==> Select(p, args).Selected? && load(Select(p, args).alt).Instance? && load(Select(p, args).alt).truthy
    ensures r.outcome.Raised? ==> r.outcome.error == UndefinedPluginManager
  {
    match Select(p, args)
    case Rejected => Used(p, Returned(BoolVal(false)), installed)
    case Selected(pluginName, alt) =>
      var (p1, plugin) := LoadAlternative(p, load, pluginName, alt);
      if plugin.Some? && plugin.value.truthy then Used(p1, Raised(UndefinedPluginManager), installed)
      else Used(p1, Returned(BoolVal(false)), installed)
  }

  /** The `use` command as written can never succeed: no call returns `True` or records the alternative. */
  lemma UseNeverSucceedsAsWritten(p: Plugin, load: Alternative -> Loaded, installed: map<string, nat>, args: seq<string>)
    ensures CmdUseAsWritten(p, load, installed, args).outcome != Returned(BoolVal(true))
    ensures CmdUseAsWritten(p, load, installed, args).installed == installed
  {
  }

  /** The same input where the load works: `use shell_assistant manual_installer` raises `NameError`. */
  lemma UseRaisesOnWorkingLoad(load: Alternative -> Loaded, installed: map<string, nat>)
    requires load(ManualInstaller) == Instance(1, true)
    ensures CmdUseAsWritten(New(), load, installed, ["shell_assistant", "manual_installer"]).outcome
            == Raised(UndefinedPluginManager)
  {
    var args := ["shell_assistant", "manual_installer"];
    var p := New();
    LowerOfLower(args[0]);
    LowerOfLower(args[1]);
    assert FirstNamed(GetAlternatives(p, args[0]), args[1]) == Some(ManualInstaller);
  }

  /**
   `cmd_use_alternative(*args)` with the plugin manager in scope: a loaded,
   truthy instance is recorded under the plugin's lower-cased name and the
   command returns `True`; every other path returns `False`.
   */
  function CmdUse(p: Plugin, load: Alternative -> Loaded, installed: map<string, nat>, args: seq<string>): (r: Used)
    ensures Select(p, args).Rejected? ==> r == Used(p, Returned(BoolVal(false)), installed)
    ensures r.outcome.Returned?
    ensures r.outcome == Returned(BoolVal(true)) <==>
              Select(p, args).Selected? && load(Select(p, args).alt).Instance? && load(Select(p, args).alt).truthy
    ensures r.outcome == Returned(BoolVal(true)) ==>
              r.installed == installed[Select(p, args).pluginName := load(Select(p, args).alt).id]
    ensures r.outcome != Returned(BoolVal(true)) ==> r.installed == installed
  {
    match Select(p, args)
    case Rejected => Used(p, Returned(BoolVal(false)), installed)
    case Selected(pluginName, alt) =>
      var (p1, plugin) := LoadAlternative(p, load, pluginName, alt);
      if plugin.Some? && plugin.value.truthy then
        Used(p1, Returned(BoolVal(true)), installed[pluginName := plugin.value.id])
      else Used(p1, Returned(BoolVal(false)), installed)
  }

  /** Names are compared lower-cased: `use Voice_Service TEXT_INPUT` selects the text-input fallback. */
  lemma UseIgnoresCase(load: Alternative -> Loaded, installed: map<string, nat>)
    requires load(TextInput) == Instance(7, true)
    ensures CmdUse(New(), load, installed, ["Voice_Service", "TEXT_INPUT"])
            == Used(New(), Returned(BoolVal(true)), installed["voice_service" := 7])
  {
    var p := New();
    var a0, a1 := "Voice_Service", "TEXT_INPUT";
    assert Lower(a0) == "voice_service";
    assert Lower(a1) == "text_input";
    LowerOfLower(TextInput.name);
    assert FirstNamed(GetAlternatives(p, Lower(a0)), Lower(a1)) == Some(TextInput);
  }
}
