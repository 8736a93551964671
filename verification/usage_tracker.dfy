/**
 The usage tracker (`UsageTracker` in dockevos/__main__.py and
 container-os.py): a per-command counter kept in first-seen order, a one-time
 alias hint when a count reaches 5, and statistics whose top-5 list is a
 stable descending sort of the counters.
 */
module UsageTracker {
  import opened Common

  /** One `command_count` entry. */
  datatype Count = Count(cmd: string, n: nat)

  /** `command_count`, in the order its keys were first seen. */
  datatype Tracker = Tracker(counts: seq<Count>)

  /** What `get_stats` reports, without the wall-clock session time. */
  datatype Stats = Stats(commandsUsed: nat, total: nat, mostUsed: seq<Count>)

  /** The threshold at which the alias hint fires. */
  const AliasThreshold: nat := 5

  /** How many entries `most_used` keeps. */
  const TopN: nat := 5

  function Cmds(cs: seq<Count>): seq<string>
  {
    if cs == [] then [] else [cs[0].cmd] + Cmds(cs[1..])
  }

  ghost predicate Valid(t: Tracker)
  {
    && Distinct(Cmds(t.counts))
    && (forall i :: 0 <= i < |t.counts| ==> t.counts[i].n >= 1)
  }

  function Empty(): (t: Tracker)
    ensures Valid(t)
  {
    Tracker([])
  }

  /** `command_count[cmd]` (0 for a command never seen, as with `defaultdict(int)`). */
  function CountIn(cs: seq<Count>, cmd: string): nat
  {
    if cs == [] then 0 else if cs[0].cmd == cmd then cs[0].n else CountIn(cs[1..], cmd)
  }

  function CountOf(t: Tracker, cmd: string): nat
  {
    CountIn(t.counts, cmd)
  }

  lemma {:induction false} CmdsLength(cs: seq<Count>)
    ensures |Cmds(cs)| == |cs|
    ensures forall i :: 0 <= i < |cs| ==> Cmds(cs)[i] == cs[i].cmd
  {
    if cs != [] {
      CmdsLength(cs[1..]);
    }
  }

  lemma {:induction false} CountInAbsent(cs: seq<Count>, cmd: string)
    requires cmd !in Cmds(cs)
    ensures CountIn(cs, cmd) == 0
  {
    if cs != [] {
      CountInAbsent(cs[1..], cmd);
    }
  }

  /** `command_count[cmd] += 1` on the entry list. */
  function Bump(cs: seq<Count>, cmd: string): (r: seq<Count>)
    ensures CountIn(r, cmd) == CountIn(cs, cmd) + 1
    ensures forall c :: c != cmd ==> CountIn(r, c) == CountIn(cs, c)
    ensures Cmds(r) == (if cmd in Cmds(cs) then Cmds(cs) else Cmds(cs) + [cmd])
  {
    if cs == [] then [Count(cmd, 1)]
    else if cs[0].cmd == cmd then [Count(cmd, cs[0].n + 1)] + cs[1..]
    else
      var r := [cs[0]] + Bump(cs[1..], cmd);
      assert r[1..] == Bump(cs[1..], cmd);
      r
  }

  lemma BumpValid(t: Tracker, cmd: string)
    requires Valid(t)
    ensures Valid(Tracker(Bump(t.counts, cmd)))
  {
    var cs := t.counts;
    var r := Bump(cs, cmd);
    CmdsLength(cs);
    CmdsLength(r);
    assert Distinct(Cmds(r));
    forall i | 0 <= i < |r| ensures r[i].n >= 1 {
      CountInDistinct(r, i);
      if r[i].cmd != cmd {
        assert Cmds(r)[i] == r[i].cmd;
        assert r[i].cmd in Cmds(cs);
        var j :| 0 <= j < |Cmds(cs)| && Cmds(cs)[j] == r[i].cmd;
        CountInDistinct(cs, j);
      }
    }
  }

  /** In a list with distinct commands, an entry's count is what `CountIn` finds for its command. */
  lemma {:induction false} CountInDistinct(cs: seq<Count>, i: nat)
    requires Distinct(Cmds(cs)) && i < |cs|
    ensures CountIn(cs, cs[i].cmd) == cs[i].n
  {
    CmdsLength(cs);
    if i > 0 {
      assert Cmds(cs)[0] != Cmds(cs)[i];
      assert Distinct(Cmds(cs[1..])) by {
        CmdsLength(cs[1..]);
      }
      CountInDistinct(cs[1..], i - 1);
    }
  }

  /**
   `track_command(cmd)`: the count goes up by one and the hint (the second
   component) fires exactly when the new count is 5.
   */
  function Track(t: Tracker, cmd: string): (r: (Tracker, bool))
    ensures CountOf(r.0, cmd) == CountOf(t, cmd) + 1
    ensures forall c :: c != cmd ==> CountOf(r.0, c) == CountOf(t, c)
    ensures r.1 <==> CountOf(t, cmd) + 1 == AliasThreshold
    ensures Cmds(r.0.counts) == (if cmd in Cmds(t.counts) then Cmds(t.counts) else Cmds(t.counts) + [cmd])
  {
    var cs := Bump(t.counts, cmd);
    (Tracker(cs), CountIn(cs, cmd) == AliasThreshold)
  }

  /** Track a run of command tokens; the second component lists the hints, in order. */
  function TrackAll(t: Tracker, cmds: seq<string>): (r: (Tracker, seq<string>))
    decreases |cmds|
  {
    if cmds == [] then (t, [])
    else
      var (t1, hint) := Track(t, cmds[0]);
      var (t2, hints) := TrackAll(t1, cmds[1..]);
      (t2, (if hint then [cmds[0]] else []) + hints)
  }

  /**
   Over any run of commands, each command's count grows by its number of
   occurrences, and its alias hint fires exactly once if the run carries its
   count from below 5 to 5 or more, and never otherwise.
   */
  lemma {:induction false} TrackAllCountsAndHints(t: Tracker, cmds: seq<string>, c: string)
    ensures CountOf(TrackAll(t, cmds).0, c) == CountOf(t, c) + multiset(cmds)[c]
    ensures multiset(TrackAll(t, cmds).1)[c]
            == (if CountOf(t, c) < AliasThreshold <= CountOf(t, c) + multiset(cmds)[c] then 1 else 0)
    decreases |cmds|
  {
    if cmds != [] {
      var (t1, hint) := Track(t, cmds[0]);
      var (t2, hints) := TrackAll(t1, cmds[1..]);
      TrackAllCountsAndHints(t1, cmds[1..], c);
      assert TrackAll(t, cmds) == (t2, (if hint then [cmds[0]] else []) + hints);
      if c == cmds[0] {
        assert CountOf(t1, c) == CountOf(t, c) + 1;
        assert hint <==> CountOf(t, c) + 1 == AliasThreshold;
      } else {
        assert CountOf(t1, c) == CountOf(t, c);
      }
      assert multiset(cmds)[c] == (if cmds[0] == c then 1 else 0) + multiset(cmds[1..])[c] by {
        assert cmds == [cmds[0]] + cmds[1..];
      }
      assert multiset((if hint then [cmds[0]] else []) + hints)[c]
             == (if hint && cmds[0] == c then 1 else 0) + multiset(hints)[c];
    }
  }

  /** Invoking `ps` five times from scratch gives one hint; a sixth invocation gives none. */
  lemma FiveThenSix(t: Tracker)
    requires CountOf(t, "ps") == 0
    ensures multiset(TrackAll(t, ["ps", "ps", "ps", "ps", "ps"]).1)["ps"] == 1
    ensures !Track(TrackAll(t, ["ps", "ps", "ps", "ps", "ps"]).0, "ps").1
  {
    TrackAllCountsAndHints(t, ["ps", "ps", "ps", "ps", "ps"], "ps");
  }

  // ---------------------------------------------------------------------------
  // Statistics
  // ---------------------------------------------------------------------------

  function Sum(cs: seq<Count>): nat
  {
    if cs == [] then 0 else cs[0].n + Sum(cs[1..])
  }

  /** Each entry's count is at least the next one's. */
  ghost predicate Descending(s: seq<Count>)
  {
    |s| <= 1 || (s[0].n >= s[1].n && Descending(s[1..]))
  }

  /** Adjacent order gives order between any two positions. */
  lemma {:induction false} DescendingPairwise(s: seq<Count>)
    requires Descending(s)
    ensures forall i, j :: 0 <= i < j < |s| ==> s[i].n >= s[j].n
  {
    if |s| > 1 {
      DescendingPairwise(s[1..]);
      forall i, j | 0 <= i < j < |s| ensures s[i].n >= s[j].n {
        if i > 0 {
          assert s[i] == s[1..][i - 1] && s[j] == s[1..][j - 1];
        } else if j > 1 {
          assert s[1] == s[1..][0] && s[j] == s[1..][j - 1];
        }
      }
    }
  }

  /** A prefix of a descending list is descending. */
  lemma {:induction false} DescendingPrefix(s: seq<Count>, k: nat)
    requires Descending(s) && k <= |s|
    ensures Descending(s[..k])
  {
    if k > 1 {
      assert s[..k][1..] == s[1..][..k - 1];
      DescendingPrefix(s[1..], k - 1);
    }
  }

  /** An entry at least as large as the head of a descending list extends it. */
  lemma DescendingCons(h: Count, t: seq<Count>)
    requires Descending(t) && (t == [] || h.n >= t[0].n)
    ensures Descending([h] + t)
  {
    assert ([h] + t)[1..] == t;
  }

  /** The entries whose count is `v`, in list order. */
  function WithCount(s: seq<Count>, v: nat): seq<Count>
  {
    if s == [] then [] else (if s[0].n == v then [s[0]] else []) + WithCount(s[1..], v)
  }

  /** `WithCount` of a list with a given head. */
  lemma WithCountCons(h: Count, t: seq<Count>, v: nat)
    ensures WithCount([h] + t, v) == (if h.n == v then [h] else []) + WithCount(t, v)
  {
    assert ([h] + t)[1..] == t;
  }

  /** Two lists of which one is empty can be put in either order. */
  lemma SwapWhenOneEmpty(a: seq<Count>, b: seq<Count>, w: seq<Count>)
    requires a == [] || b == []
    ensures a + (b + w) == b + (a + w)
  {
    if a == [] {
      assert a + (b + w) == b + w;
      assert a + w == w;
    } else {
      assert b + w == w;
      assert b + (a + w) == a + w;
    }
  }

  /**
   Place `x` in front of the first entry whose count is not larger than its
   own, behind every entry whose count is.
   */
  function Insert(x: Count, s: seq<Count>): (r: seq<Count>)
    requires Descending(s)
    ensures |r| == |s| + 1
    ensures r[0] == x || (s != [] && r[0] == s[0])
    ensures Descending(r)
    ensures multiset(r) == multiset(s) + multiset{x}
  {
    if s == [] then [x]
    else if s[0].n > x.n then
      var t := Insert(x, s[1..]);
      InsertBehind(x, s, t);
      [s[0]] + t
    else
      DescendingCons(x, s);
      [x] + s
  }

  /** The step of `Insert` that keeps the head and inserts into the tail. */
  lemma InsertBehind(x: Count, s: seq<Count>, t: seq<Count>)
    requires Descending(s) && s != [] && s[0].n > x.n
    requires Descending(t) && multiset(t) == multiset(s[1..]) + multiset{x}
    requires t != [] && (t[0] == x || (s[1..] != [] && t[0] == s[1..][0]))
    ensures Descending([s[0]] + t)
    ensures multiset([s[0]] + t) == multiset(s) + multiset{x}
  {
    DescendingCons(s[0], t);
    assert s == [s[0]] + s[1..];
  }

  /** `x` goes in front of the entries that share its count: the insertion is stable. */
  lemma {:induction false} InsertStable(x: Count, s: seq<Count>, v: nat)
    requires Descending(s)
    ensures WithCount(Insert(x, s), v) == (if x.n == v then [x] else []) + WithCount(s, v)
  {
    if s == [] {
      WithCountCons(x, [], v);
    } else if s[0].n > x.n {
      assert Insert(x, s) == [s[0]] + Insert(x, s[1..]);
      InsertStable(x, s[1..], v);
      StableBehind(x, s, Insert(x, s[1..]), v);
    } else {
      assert Insert(x, s) == [x] + s;
      WithCountCons(x, s, v);
    }
  }

  /** Keeping a larger head in front does not disturb the order among equal counts. */
  lemma StableBehind(x: Count, s: seq<Count>, t: seq<Count>, v: nat)
    requires s != [] && s[0].n > x.n
    requires WithCount(t, v) == (if x.n == v then [x] else []) + WithCount(s[1..], v)
    ensures WithCount([s[0]] + t, v) == (if x.n == v then [x] else []) + WithCount(s, v)
  {
    var a := if s[0].n == v then [s[0]] else [];
    var b := if x.n == v then [x] else [];
    var w := WithCount(s[1..], v);
    WithCountCons(s[0], t, v);
    WithCountCons(s[0], s[1..], v);
    assert [s[0]] + s[1..] == s;
    assert WithCount([s[0]] + t, v) == a + (b + w);
    assert WithCount(s, v) == a + w;
    SwapWhenOneEmpty(a, b, w);
  }

  /**
   `sorted(items, key=count, reverse=True)`, built by stable insertion from
   the back: each entry goes in front of the later entries of equal count.
   */
  function SortDesc(s: seq<Count>): (r: seq<Count>)
    ensures Descending(r)
    ensures multiset(r) == multiset(s)
  {
    if s == [] then []
    else
      assert multiset(s) == multiset{s[0]} + multiset(s[1..]) by {
        assert s == [s[0]] + s[1..];
      }
      Insert(s[0], SortDesc(s[1..]))
  }

  /** Entries with equal counts keep their first-seen order after sorting. */
  lemma {:induction false} SortDescStable(s: seq<Count>, v: nat)
    ensures WithCount(SortDesc(s), v) == WithCount(s, v)
  {
    if s != [] {
      SortDescStable(s[1..], v);
      InsertStable(s[0], SortDesc(s[1..]), v);
      WithCountCons(s[0], s[1..], v);
      assert [s[0]] + s[1..] == s;
    }
  }

  /** The first `k` entries of `a` occur in any list with the same entries. */
  lemma PrefixMembers(a: seq<Count>, b: seq<Count>, k: nat)
    requires multiset(a) == multiset(b) && k <= |a|
    ensures forall i :: 0 <= i < k ==> a[..k][i] in b
  {
    SameMembers(a, b);
    forall i | 0 <= i < k ensures a[..k][i] in b {
      assert a[..k][i] == a[i] && a[i] in a;
    }
  }

  /** `get_stats` without the session time. */
  function GetStats(t: Tracker): (r: Stats)
    ensures r.commandsUsed == |t.counts|
    ensures r.total == Sum(t.counts)
    ensures |r.mostUsed| == (if |t.counts| < TopN then |t.counts| else TopN)
    ensures Descending(r.mostUsed)
    ensures forall i :: 0 <= i < |r.mostUsed| ==> r.mostUsed[i] in t.counts
  {
    var ranked := SortDesc(t.counts);
    var k := if |ranked| < TopN then |ranked| else TopN;
    PrefixMembers(ranked, t.counts, k);
    DescendingPrefix(ranked, k);
    Stats(|t.counts|, Sum(t.counts), ranked[..k])
  }

  /**
   `most_used` is the first five entries of a stable descending sort: every
   entry left out has a count no larger than any entry kept, and the kept
   entries of each count are the earliest-seen ones, in first-seen order.
   */
  lemma MostUsedIsStableTop(t: Tracker, v: nat)
    ensures GetStats(t).mostUsed == SortDesc(t.counts)[..|GetStats(t).mostUsed|]
    ensures forall c, m :: c in t.counts && c !in GetStats(t).mostUsed && m in GetStats(t).mostUsed ==> c.n <= m.n
    ensures WithCount(SortDesc(t.counts), v) == WithCount(t.counts, v)
  {
    SortDescStable(t.counts, v);
    var ranked := SortDesc(t.counts);
    var top := GetStats(t).mostUsed;
    var k := if |ranked| < TopN then |ranked| else TopN;
    assert top == ranked[..k];
    SameMembers(t.counts, ranked);
    forall c, m | c in t.counts && c !in top && m in top ensures c.n <= m.n {
      LeftOutRanksLower(ranked, k, c, m);
    }
  }

  lemma LeftOutRanksLower(ranked: seq<Count>, k: nat, c: Count, m: Count)
    requires Descending(ranked) && k <= |ranked|
    requires c in ranked && c !in ranked[..k] && m in ranked[..k]
    ensures c.n <= m.n
  {
    var i :| 0 <= i < |ranked| && ranked[i] == c;
    var j :| 0 <= j < k && ranked[..k][j] == m;
    DescendingPairwise(ranked);
    assert forall i' :: 0 <= i' < k ==> ranked[..k][i'] == ranked[i'];
  }

  /** Tracking a run adds its length to the total, keeps the entries distinct, and adds each new token as an entry. */
  lemma {:induction false} TrackAllStats(t: Tracker, cmds: seq<string>)
    requires Valid(t)
    ensures Valid(TrackAll(t, cmds).0)
    ensures Sum(TrackAll(t, cmds).0.counts) == Sum(t.counts) + |cmds|
    ensures forall c :: c in Cmds(TrackAll(t, cmds).0.counts) <==> c in Cmds(t.counts) || c in cmds
    decreases |cmds|
  {
    if cmds != [] {
      var t1 := Track(t, cmds[0]).0;
      BumpValid(t, cmds[0]);
      BumpSum(t.counts, cmds[0]);
      TrackAllStats(t1, cmds[1..]);
    }
  }

  lemma {:induction false} BumpSum(cs: seq<Count>, cmd: string)
    ensures Sum(Bump(cs, cmd)) == Sum(cs) + 1
  {
    if cs != [] && cs[0].cmd != cmd {
      BumpSum(cs[1..], cmd);
      assert ([cs[0]] + Bump(cs[1..], cmd))[1..] == Bump(cs[1..], cmd);
    } else if cs != [] {
      assert ([Count(cmd, cs[0].n + 1)] + cs[1..])[1..] == cs[1..];
    }
  }

  /** From an empty tracker, `total_commands` is the number of lines tracked. */
  lemma TotalIsLinesTracked(cmds: seq<string>)
    ensures GetStats(TrackAll(Empty(), cmds).0).total == |cmds|
    ensures forall c :: c in Cmds(TrackAll(Empty(), cmds).0.counts) <==> c in cmds
  {
    TrackAllStats(Empty(), cmds);
  }
}
