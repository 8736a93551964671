/**
 The command-history side of `SystemLog` in plugins/system_log/__init__.py:
 an append-only list of executed commands that keeps only the newest 1000,
 suffix queries over it, the plugin's command table, and the argument
 handling of its `history` command. The clock is a parameter; the log file,
 `logs` and `system_info` are not part of this model.
 */
module SystemLog {
  import opened Common
  import ErrorHandler

  /** One `log_command` entry. */
  datatype Entry = Entry(
    timestamp: string,
    command: string,
    args: seq<string>,
    success: bool,
    output: Option<string>,
    error: Option<string>)

  /** The history, oldest first, and the records handed to the error collector. */
  datatype SystemLog = SystemLog(history: seq<Entry>, errors: seq<ErrorHandler.Record>)

  /** The trim threshold of `log_command`. */
  const HistoryCap: nat := 1000

  /** The number of entries `history` shows without an argument. */
  const DefaultHistoryLimit: nat := 10

  /** The commands the plugin object exposes. */
  datatype Command = ShowLogs | ShowHistory | ShowSystemInfo

  function New(): (l: SystemLog)
    ensures l.history == [] && l.errors == []
  {
    SystemLog([], [])
  }

  /** `_register_commands`: the `commands` dict of the plugin object. */
  function Commands(): (r: map<string, Command>)
    ensures r.Keys == {"logs", "history", "system_info"}
    ensures r["history"] == ShowHistory
  {
    map["logs" := ShowLogs, "history" := ShowHistory, "system_info" := ShowSystemInfo]
  }

  /**
   `log_command(...)`: append the entry as the newest element, then keep only
   the newest 1000. The entry is returned.
   */
  function LogCommand(l: SystemLog, now: string, command: string, args: seq<string>, success: bool,
                      output: Option<string>, error: Option<string>): (r: (SystemLog, Entry))
    ensures r.1 == Entry(now, command, args, success, output, error)
    ensures |r.0.history| <= HistoryCap
    ensures r.0.history != [] && r.0.history[|r.0.history| - 1] == r.1
    ensures |l.history| < HistoryCap ==> r.0.history == l.history + [r.1]
    ensures |l.history| >= HistoryCap ==> |r.0.history| == HistoryCap
    ensures r.0.history == Newest(l.history + [r.1], HistoryCap)
    ensures r.0.errors == l.errors
  {
    var e := Entry(now, command, args, success, output, error);
    var h := l.history + [e];
    (l.(history := if |h| > HistoryCap then h[|h| - HistoryCap..] else h), e)
  }

  /** A run of `log_command` calls, one per entry (each entry's fields are passed as given). */
  function LogAll(l: SystemLog, es: seq<Entry>): (r: SystemLog)
    ensures |r.history| <= HistoryCap || (es == [] && r == l)
    decreases |es|
  {
    if es == [] then l
    else
      var e := es[0];
      LogAll(LogCommand(l, e.timestamp, e.command, e.args, e.success, e.output, e.error).0, es[1..])
  }

  /** However many commands are logged, the history is the newest 1000 of everything logged, oldest first. */
  lemma {:induction false} LogAllKeepsNewest(l: SystemLog, es: seq<Entry>)
    requires |l.history| <= HistoryCap
    ensures LogAll(l, es).history == Newest(l.history + es, HistoryCap)
    decreases |es|
  {
    if es == [] {
      assert l.history + es == l.history;
    } else {
      var e := es[0];
      var l1 := LogCommand(l, e.timestamp, e.command, e.args, e.success, e.output, e.error).0;
      LogAllKeepsNewest(l1, es[1..]);
      assert l.history + es == (l.history + [e]) + es[1..];
      NewestSuffix(l.history + [e], es[1..], HistoryCap);
    }
  }

  /**
   `get_command_history(limit)`: `history[-limit:]`. A positive limit gives the
   last `min(limit, len)` entries; `0` gives everything; a negative limit drops
   that many entries from the front.
   */
  function GetHistory(l: SystemLog, limit: int): (r: seq<Entry>)
    ensures |r| <= |l.history| && r == l.history[|l.history| - |r|..]
    ensures limit >= 1 ==> |r| == (if limit < |l.history| then limit else |l.history|)
    ensures limit == 0 ==> r == l.history
    ensures limit < 0 ==> |r| == (if -limit < |l.history| then |l.history| + limit else 0)
  {
    var r := PySliceFrom(l.history, -limit);
    assert limit == 0 ==> r == l.history[0..];
    r
  }

  /** What `cmd_show_history` returns and the entries it prints, oldest first. */
  datatype Shown = Shown(log: SystemLog, ok: bool, entries: seq<Entry>)

  /** The `log_error` context of a failed `history` command. */
  function HistoryErrorContext(args: seq<string>): map<string, Val>
  {
    map["action" := StrVal("show_history"), "args" := ListVal(args)]
  }

  /**
   `cmd_show_history(*args)`: the last 10 entries without arguments, otherwise
   the last `int(args[0])`; an argument `int()` rejects is logged and gives `False`.
   */
  function CmdShowHistory(l: SystemLog, args: seq<string>): (r: Shown)
    ensures args == [] ==> r == Shown(l, true, GetHistory(l, DefaultHistoryLimit))
    ensures args != [] && ParseInt(args[0]).Some? ==> r == Shown(l, true, GetHistory(l, ParseInt(args[0]).value))
    ensures args != [] && ParseInt(args[0]).None? ==>
              !r.ok && r.entries == [] && r.log.history == l.history
              && r.log.errors == l.errors + [ErrorHandler.MakeRecord(
                   Exception("ValueError", "invalid literal for int() with base 10: '" + args[0] + "'"),
                   Some(HistoryErrorContext(args)))]
    ensures r.log.history == l.history
  {
    if args == [] then Shown(l, true, GetHistory(l, DefaultHistoryLimit))
    else
      match ParseInt(args[0])
      case Some(n) => Shown(l, true, GetHistory(l, n))
      case None =>
        var e := Exception("ValueError", "invalid literal for int() with base 10: '" + args[0] + "'");
        Shown(l.(errors := l.errors + [ErrorHandler.MakeRecord(e, Some(HistoryErrorContext(args)))]), false, [])
  }

  /** `history N` for a positive `N` written in decimal shows the last `min(N, len)` entries. */
  lemma HistoryOfNumber(l: SystemLog, n: nat, rest: seq<string>)
    requires n >= 1
    ensures CmdShowHistory(l, [IntToString(n)] + rest).ok
    ensures CmdShowHistory(l, [IntToString(n)] + rest).entries
            == l.history[|l.history| - (if n < |l.history| then n else |l.history|)..]
  {
    ParseIntOfIntToString(n);
    assert ([IntToString(n)] + rest)[0] == IntToString(n);
  }

  /** A command logged while the history is below the cap is what `history 1` shows next. */
  lemma LoggedThenShown(l: SystemLog, now: string, command: string, args: seq<string>, success: bool,
                        output: Option<string>, error: Option<string>)
    ensures GetHistory(LogCommand(l, now, command, args, success, output, error).0, 1)
            == [Entry(now, command, args, success, output, error)]
  {
    var r := LogCommand(l, now, command, args, success, output, error);
    var h := r.0.history;
    assert GetHistory(r.0, 1) == h[|h| - 1..];
  }
}
