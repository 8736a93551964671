/**
 The sample plugin (plugins/sample_plugin.py): `register` adds the `hello`
 and `time` commands to the shell it is given, and `unregister` removes them.
 As a plugin unit it is two straight-line pieces of code that never raise;
 what the two command callables print is modelled separately.
 */
module SamplePlugin {
  import opened Common
  import Shell

  /** `register(event_bus, shell)`: two registrations, in this order. */
  function Register(hello: nat, time: nat): Shell.Code
  {
    Shell.Code([Shell.RegisterCmd("hello", hello), Shell.RegisterCmd("time", time)], None)
  }

  /** `unregister(event_bus, shell)`: two removals, in this order. */
  function Unregister(): Shell.Code
  {
    Shell.Code([Shell.UnregisterCmd("hello"), Shell.UnregisterCmd("time")], None)
  }

  /** The module as the shell's loader sees it; `hello` and `time` stand for the two callables. */
  function SampleUnit(hello: nat, time: nat): Shell.Unit
  {
    Shell.Unit("sample_plugin", None, Some(Register(hello, time)), Some(Unregister()))
  }

  /** `register` returns normally and leaves exactly `hello` and `time` added (or replaced). */
  lemma RegisterAddsHelloAndTime(sh: Shell.Shell, hello: nat, time: nat)
    requires Shell.Valid(sh)
    ensures Shell.Call(sh, Register(hello, time)).1 == None
    ensures Shell.Call(sh, Register(hello, time)).0.commands
            == sh.commands["hello" := Shell.PluginCmd(hello)]["time" := Shell.PluginCmd(time)]
  {
    var c := Register(hello, time);
    assert c.actions[..Shell.Performed(c)] == c.actions;
    var s1 := Shell.ApplyAction(sh, c.actions[0]);
    assert Shell.RunActions(sh, c.actions) == Shell.RunActions(s1, c.actions[1..]);
    assert c.actions[1..][1..] == [];
  }

  /** `unregister` returns normally and leaves exactly `hello` and `time` gone. */
  lemma UnregisterRemovesHelloAndTime(sh: Shell.Shell)
    requires Shell.Valid(sh)
    ensures Shell.Call(sh, Unregister()).1 == None
    ensures Shell.Call(sh, Unregister()).0.commands == sh.commands - {"hello", "time"}
  {
    var c := Unregister();
    assert c.actions[..Shell.Performed(c)] == c.actions;
    var s1 := Shell.ApplyAction(sh, c.actions[0]);
    assert Shell.RunActions(sh, c.actions) == Shell.RunActions(s1, c.actions[1..]);
    assert c.actions[1..][1..] == [];
  }

  /**
   Register then unregister: every other command is back as it was, and
   `hello` and `time` are gone even if the shell had its own commands under
   those names before.
   */
  lemma RegisterUnregisterRoundTrip(sh: Shell.Shell, hello: nat, time: nat)
    requires Shell.Valid(sh)
    ensures var s1 := Shell.Call(sh, Register(hello, time)).0;
            Shell.Call(s1, Unregister()).0.commands == sh.commands - {"hello", "time"}
    ensures "hello" !in sh.commands && "time" !in sh.commands ==>
              var s1 := Shell.Call(sh, Register(hello, time)).0;
              Shell.Call(s1, Unregister()).0.commands == sh.commands
  {
    RegisterAddsHelloAndTime(sh, hello, time);
    var s1 := Shell.Call(sh, Register(hello, time)).0;
    UnregisterRemovesHelloAndTime(s1);
    RemoveTwo(sh.commands, "hello", "time", Shell.PluginCmd(hello), Shell.PluginCmd(time));
  }

  /** Removing two keys undoes setting them, and removing absent keys changes nothing. */
  lemma RemoveTwo<V>(m: map<string, V>, a: string, b: string, x: V, y: V)
    ensures m[a := x][b := y] - {a, b} == m - {a, b}
    ensures a !in m && b !in m ==> m - {a, b} == m
  {
  }

  /** `hello` and `time` are not built-in names in either copy of the shell. */
  lemma FreshShellLacksHelloAndTime(ed: Shell.Edition)
    ensures "hello" !in Shell.New(ed).commands && "time" !in Shell.New(ed).commands
  {
    var ns := Shell.BuiltinNames(ed);
    forall i | 0 <= i < |ns| ensures ns[i] != "hello" && ns[i] != "time" {
      assert Shell.CharAt(ns[i], 3) != 'l';
      assert Shell.CharAt(ns[i], 0) != 't';
    }
  }

  /**
   Loading the sample plugin into a shell that has not loaded it succeeds and
   records it; afterwards `hello` and `time` run the plugin's callables and
   every other command keeps its handler.
   */
  lemma LoadSample(env: Shell.Env, sh: Shell.Shell, hello: nat, time: nat)
    requires Shell.Valid(sh) && "sample_plugin" !in sh.plugins.vals
    ensures var r := Shell.LoadPlugin(env, sh, SampleUnit(hello, time));
            && r.1
            && "sample_plugin" in r.0.plugins.vals
            && r.0.commands == sh.commands["hello" := Shell.PluginCmd(hello)]["time" := Shell.PluginCmd(time)]
  {
    RegisterAddsHelloAndTime(sh, hello, time);
  }

  /** In a fresh shell the plugin adds two commands and leaves every built-in alone. */
  lemma LoadIntoFreshShell(env: Shell.Env, ed: Shell.Edition, hello: nat, time: nat)
    ensures var sh := Shell.New(ed);
            var r := Shell.LoadPlugin(env, sh, SampleUnit(hello, time));
            && r.1
            && Shell.Lookup(r.0, "hello") == Some(Shell.PluginCmd(hello))
            && Shell.Lookup(r.0, "time") == Some(Shell.PluginCmd(time))
            && (forall k :: k in sh.commands ==> Shell.Lookup(r.0, k) == Some(sh.commands[k]))
            && |r.0.commands| == |sh.commands| + 2
  {
    var sh := Shell.New(ed);
    LoadSample(env, sh, hello, time);
    FreshShellLacksHelloAndTime(ed);
    TwoNewKeys(sh.commands, "hello", "time", Shell.PluginCmd(hello), Shell.PluginCmd(time));
  }

  /** Adding two new keys keeps every old entry and grows the map by two. */
  lemma TwoNewKeys<V>(m: map<string, V>, a: string, b: string, x: V, y: V)
    requires a !in m && b !in m && a != b
    ensures |m[a := x][b := y]| == |m| + 2
    ensures forall k :: k in m ==> k in m[a := x][b := y] && m[a := x][b := y][k] == m[k]
  {
  }

  /**
   Once loaded, a `hello` line dispatches to the plugin's callable with the
   remaining tokens and reports what it produced.
   */
  lemma HelloDispatches(env: Shell.Env, sh: Shell.Shell, hello: nat, time: nat, line: string)
    requires Shell.Valid(sh) && "sample_plugin" !in sh.plugins.vals && sh.running
    requires Split(line) != [] && Split(line)[0] == "hello"
    ensures var s1 := Shell.LoadPlugin(env, sh, SampleUnit(hello, time)).0;
            var r := Shell.Execute(env, s1, line);
            && r.commands == s1.commands
            && r.running
            && r.out == Shell.ShellEmit(env, s1, Shell.CommandExecuted, Shell.ExecutedData(line, Split(line)[1..])).out
                        + Shell.Report(env.run(hello, Split(line)[1..]))
  {
    LoadSample(env, sh, hello, time);
  }

  /**
   Loading the sample plugin again unregisters the old copy first, so the
   second load replaces both commands and the shell holds one record.
   */
  lemma ReloadReplaces(env: Shell.Env, sh: Shell.Shell, h1: nat, t1: nat, h2: nat, t2: nat)
    requires Shell.Valid(sh) && "sample_plugin" !in sh.plugins.vals
    ensures var s1 := Shell.LoadPlugin(env, sh, SampleUnit(h1, t1)).0;
            var r := Shell.LoadPlugin(env, s1, SampleUnit(h2, t2));
            && r.1
            && r.0.plugins.vals["sample_plugin"] == SampleUnit(h2, t2)
            && r.0.commands == sh.commands["hello" := Shell.PluginCmd(h2)]["time" := Shell.PluginCmd(t2)]
  {
    var u1, u2 := SampleUnit(h1, t1), SampleUnit(h2, t2);
    LoadSample(env, sh, h1, t1);
    var s1 := Shell.LoadPlugin(env, sh, u1).0;
    assert s1.plugins.vals["sample_plugin"] == u1;
    assert Shell.UnloadsCleanly(s1, "sample_plugin");
    var s2 := Shell.UnloadPlugin(env, s1, "sample_plugin").0;
    UnregisterRemovesHelloAndTime(s1);
    assert s2.commands == s1.commands - {"hello", "time"};
    RegisterAddsHelloAndTime(s2, h2, t2);
    ReplaceTwo(sh.commands, "hello", "time", Shell.PluginCmd(h1), Shell.PluginCmd(t1), Shell.PluginCmd(h2), Shell.PluginCmd(t2));
  }

  /** Setting two keys, removing them and setting them again is the same as setting them once. */
  lemma ReplaceTwo<V>(m: map<string, V>, a: string, b: string, x1: V, y1: V, x2: V, y2: V)
    requires a != b
    ensures (m[a := x1][b := y1] - {a, b})[a := x2][b := y2] == m[a := x2][b := y2]
  {
  }

  // ---------------------------------------------------------------------------
  // What the two callables produce
  // ---------------------------------------------------------------------------

  /** `args[0] if args else 'World'`. */
  function Addressee(args: seq<string>): string
  {
    if args == [] then "World" else args[0]
  }

  /** `handle_hello_command`: greet the first argument, or the world. */
  function Greeting(args: seq<string>): (r: string)
    ensures |r| == |Addressee(args)| + 8
    ensures r[..7] == "Hello, " && r[|r| - 1] == '!'
  {
    "Hello, " + Addressee(args) + "!"
  }

  /** The addressee can be read back out of the greeting. */
  lemma GreetingNamesAddressee(args: seq<string>)
    ensures var g := Greeting(args); g[7..|g| - 1] == Addressee(args)
    ensures args != [] ==> var g := Greeting(args); g[7..|g| - 1] == args[0]
  {
    var g := Greeting(args);
    assert g == "Hello, " + Addressee(args) + "!";
    assert g[7..|g| - 1] == Addressee(args);
  }

  /** `handle_time_command`: the clock's formatted reading after a fixed prefix. */
  function TimeText(stamp: string): (r: string)
    ensures |r| == |stamp| + 14 && r[14..] == stamp
  {
    "Current time: " + stamp
  }
}
