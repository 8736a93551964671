/**
 The error collector of plugins/error_handler/__init__.py: a de-duplicated
 list of known command names, a "did you mean" suggestion over it, and a
 structured error record fanned out to the collector's own handler registry.

 difflib's similarity is `2 * M / T`, where `T` is the two lengths summed and
 `M` is the number of characters SequenceMatcher matches. Here `M` is a
 parameter (`matched(candidate, word)`) and every ratio is a fraction
 compared exactly, so no floating point appears.
 */
module ErrorHandler {
  import opened Common
  import FanOut

  /** `{'type': ..., 'message': ..., 'context': ...}` as built by `log_error`. */
  datatype Record = Record(kind: string, message: string, context: map<string, Val>)

  /** What the collector writes to its logger, without the timestamp and wording. */
  datatype LogLine = ErrorOccurred(record: Record) | HandlerFailed(eventType: string)

  /**
   The collector: known commands (no duplicates), handlers per event type in
   registration order, the logger's lines, and every handler call made so far
   with its argument.
   */
  datatype Collector = Collector(
    known: seq<string>,
    handlers: map<string, seq<nat>>,
    log: seq<LogLine>,
    calls: seq<(nat, Record)>)

  const ErrorOccurredEvent: string := "error_occurred"

  function New(): (c: Collector)
    ensures c.known == [] && c.handlers == map[] && c.log == [] && c.calls == []
  {
    Collector([], map[], [], [])
  }

  // ---------------------------------------------------------------------------
  // Known commands
  // ---------------------------------------------------------------------------

  /** `list(set(xs))`: each element once, in an order the source leaves unspecified. */
  function Dedup(xs: seq<string>): (r: seq<string>)
    ensures Distinct(r)
    ensures forall x :: x in r <==> x in xs
    ensures |r| <= |xs|
  {
    if xs == [] then []
    else
      var t := Dedup(xs[1..]);
      assert forall x :: x in xs <==> x == xs[0] || x in xs[1..];
      if xs[0] in t then t else [xs[0]] + t
  }

  /** `register_commands(cs)`: the known commands become the old ones together with `cs`, each once. */
  function RegisterCommands(c: Collector, cs: seq<string>): (r: Collector)
    ensures Distinct(r.known)
    ensures forall x :: x in r.known <==> x in c.known || x in cs
    ensures r.handlers == c.handlers && r.log == c.log && r.calls == c.calls
  {
    c.(known := Dedup(c.known + cs))
  }

  /** Registering the same names again changes nothing but possibly the order. */
  lemma RegisterCommandsTwice(c: Collector, cs: seq<string>)
    ensures forall x :: x in RegisterCommands(RegisterCommands(c, cs), cs).known <==> x in RegisterCommands(c, cs).known
    ensures |RegisterCommands(RegisterCommands(c, cs), cs).known| == |RegisterCommands(c, cs).known|
  {
    var once := RegisterCommands(c, cs).known;
    var twice := RegisterCommands(RegisterCommands(c, cs), cs).known;
    DistinctSameMembersSameLength(once, twice);
  }

  /** Two duplicate-free sequences with the same members are equally long. */
  lemma DistinctSameMembersSameLength(a: seq<string>, b: seq<string>)
    requires Distinct(a) && Distinct(b)
    requires forall x :: x in a <==> x in b
    ensures |a| == |b|
  {
    DistinctCard(a);
    DistinctCard(b);
    assert (set x | x in a) == (set x | x in b);
  }

  /** A duplicate-free sequence has as many elements as its set of members. */
  lemma {:induction false} DistinctCard(a: seq<string>)
    requires Distinct(a)
    ensures |set x | x in a| == |a|
  {
    if a != [] {
      DistinctCard(a[1..]);
      assert (set x | x in a) == (set x | x in a[1..]) + {a[0]};
      assert a[0] !in (set x | x in a[1..]);
    }
  }

  // ---------------------------------------------------------------------------
  // Suggestion
  // ---------------------------------------------------------------------------

  /** `matched(candidate, word)`: the number of characters SequenceMatcher pairs up. */
  type Matcher = (string, string) -> nat

  /** A ratio `num / den` with a positive denominator. */
  datatype Score = Score(num: nat, den: nat)

  /** SequenceMatcher's `ratio()`: `2 * M / T`, and `1` when both strings are empty. */
  function Ratio(matched: Matcher, candidate: string, word: string): (s: Score)
    ensures s.den > 0
    ensures |candidate| + |word| == 0 ==> s.num == s.den
    ensures |candidate| + |word| > 0 ==> s.den == |candidate| + |word| && s.num == 2 * matched(candidate, word)
  {
    if |candidate| + |word| == 0 then Score(1, 1)
    else Score(2 * matched(candidate, word), |candidate| + |word|)
  }

  /** `ratio >= 0.6`, the cutoff `suggest_correction` passes. */
  predicate Passes(s: Score)
  {
    5 * s.num >= 3 * s.den
  }

  /** Whether `(s1, x1) > (s2, x2)` as Python compares the tuples `nlargest` ranks. */
  predicate Ranks(s1: Score, x1: string, s2: Score, x2: string)
  {
    s1.num * s2.den > s2.num * s1.den || (s1.num * s2.den == s2.num * s1.den && StrLess(x2, x1))
  }

  /** The best-ranked candidate above the cutoff: `get_close_matches(word, cands, n=1, cutoff=0.6)`. */
  function Best(matched: Matcher, word: string, cands: seq<string>): (r: Option<string>)
    ensures r.Some? ==> r.value in cands && Passes(Ratio(matched, r.value, word))
    ensures r.None? <==> forall i :: 0 <= i < |cands| ==> !Passes(Ratio(matched, cands[i], word))
    ensures r.Some? ==> forall i :: 0 <= i < |cands| && Passes(Ratio(matched, cands[i], word)) ==>
              !Ranks(Ratio(matched, cands[i], word), cands[i], Ratio(matched, r.value, word), r.value)
  {
    if cands == [] then None
    else
      var x := cands[0];
      var sx := Ratio(matched, x, word);
      var rest := Best(matched, word, cands[1..]);
      assert forall i :: 1 <= i < |cands| ==> cands[i] == cands[1..][i - 1];
      if !Passes(sx) then rest
      else if rest.None? then
        RanksIrreflexive(sx, x);
        Some(x)
      else
        var sr := Ratio(matched, rest.value, word);
        if Ranks(sx, x, sr, rest.value) then
          forall i | 0 <= i < |cands| && Passes(Ratio(matched, cands[i], word))
            ensures !Ranks(Ratio(matched, cands[i], word), cands[i], sx, x)
          {
            var y := cands[i];
            if i == 0 {
              RanksIrreflexive(sx, x);
            } else {
              assert !Ranks(Ratio(matched, y, word), y, sr, rest.value);
              if Ranks(Ratio(matched, y, word), y, sx, x) {
                RanksTransitive(Ratio(matched, y, word), y, sx, x, sr, rest.value);
              }
            }
          }
          Some(x)
        else
          rest
  }

  lemma RanksIrreflexive(s: Score, x: string)
    ensures !Ranks(s, x, s, x)
  {
    StrLessIrreflexive(x);
  }

  lemma RanksTransitive(s1: Score, x1: string, s2: Score, x2: string, s3: Score, x3: string)
    requires s1.den > 0 && s2.den > 0 && s3.den > 0
    requires Ranks(s1, x1, s2, x2) && Ranks(s2, x2, s3, x3)
    ensures Ranks(s1, x1, s3, x3)
  {
    FractionOrder(s1.num, s1.den, s2.num, s2.den, s3.num, s3.den);
    if s1.num * s2.den == s2.num * s1.den && s2.num * s3.den == s3.num * s2.den {
      StrLessTransitive(x3, x2, x1);
    }
  }

  /** Cross-multiplied comparison of fractions with positive denominators is transitive, strictly when either step is. */
  lemma FractionOrder(n1: nat, d1: nat, n2: nat, d2: nat, n3: nat, d3: nat)
    requires d1 > 0 && d2 > 0 && d3 > 0
    requires n1 * d2 >= n2 * d1 && n2 * d3 >= n3 * d2
    ensures n1 * d3 >= n3 * d1
    ensures (n1 * d2 > n2 * d1 || n2 * d3 > n3 * d2) ==> n1 * d3 > n3 * d1
    ensures (n1 * d2 == n2 * d1 && n2 * d3 == n3 * d2) ==> n1 * d3 == n3 * d1
  {
    var a := n1 * d2 * d3;
    var b := n2 * d1 * d3;
    var c := n3 * d2 * d1;
    MulLeq(n2 * d1, n1 * d2, d3);
    MulLeq(n3 * d2, n2 * d3, d1);
    assert b == n2 * d3 * d1 by { MulAssoc3(n2, d1, d3); }
    assert a == (n1 * d3) * d2 by { MulAssoc3(n1, d2, d3); }
    assert c == (n3 * d1) * d2 by { MulAssoc3(n3, d2, d1); }
    CancelPositive(n1 * d3, n3 * d1, d2);
    if n1 * d2 > n2 * d1 { MulLess(n2 * d1, n1 * d2, d3); }
    if n2 * d3 > n3 * d2 { MulLess(n3 * d2, n2 * d3, d1); }
  }

  lemma MulLeq(x: nat, y: nat, k: nat)
    requires x <= y
    ensures x * k <= y * k
  {
  }

  lemma MulLess(x: nat, y: nat, k: nat)
    requires x < y && k > 0
    ensures x * k < y * k
  {
  }

  lemma MulAssoc3(x: nat, y: nat, z: nat)
    ensures x * y * z == x * z * y
  {
  }

  /** Multiplying by a positive number keeps the order, both ways. */
  lemma CancelPositive(x: nat, y: nat, k: nat)
    requires k > 0
    ensures x * k >= y * k <==> x >= y
    ensures x * k > y * k <==> x > y
    ensures x * k == y * k <==> x == y
  {
    if x >= y { MulLeq(y, x, k); }
    if x < y { MulLess(x, y, k); }
    if x > y { MulLess(y, x, k); }
  }

  /** Each known command lower-cased, in list order. */
  function LowerAll(xs: seq<string>): (r: seq<string>)
    ensures |r| == |xs| && forall i :: 0 <= i < |xs| ==> r[i] == Lower(xs[i])
  {
    if xs == [] then [] else [Lower(xs[0])] + LowerAll(xs[1..])
  }

  /**
   `suggest_correction(word)`: `None` when nothing is known, otherwise the
   best lower-cased known command whose similarity to the lower-cased word
   reaches 0.6.
   */
  function SuggestCorrection(c: Collector, matched: Matcher, word: string): (r: Option<string>)
    ensures c.known == [] ==> r == None
    ensures r.None? <==> forall i :: 0 <= i < |c.known| ==> !Passes(Ratio(matched, Lower(c.known[i]), Lower(word)))
    ensures r.Some? ==> exists i :: 0 <= i < |c.known| && Lower(c.known[i]) == r.value
    ensures r.Some? ==> Passes(Ratio(matched, r.value, Lower(word)))
    ensures r.Some? ==> forall i :: 0 <= i < |c.known| && Passes(Ratio(matched, Lower(c.known[i]), Lower(word))) ==>
              !Ranks(Ratio(matched, Lower(c.known[i]), Lower(word)), Lower(c.known[i]),
                     Ratio(matched, r.value, Lower(word)), r.value)
  {
    if c.known == [] then None
    else
      var r := Best(matched, Lower(word), LowerAll(c.known));
      assert r.Some? ==> exists i :: 0 <= i < |c.known| && Lower(c.known[i]) == r.value by {
        if r.Some? {
          var i :| 0 <= i < |LowerAll(c.known)| && LowerAll(c.known)[i] == r.value;
        }
      }
      r
  }

  /**
   What SequenceMatcher guarantees about its match count: at most the shorter
   length, all of a string against itself, and all of both only for equal
   strings.
   */
  ghost predicate Sound(matched: Matcher)
  {
    && (forall a, b :: matched(a, b) <= |a| && matched(a, b) <= |b|)
    && (forall a :: matched(a, a) == |a|)
    && (forall a, b :: a != b ==> 2 * matched(a, b) < |a| + |b|)
  }

  /** The whole ranking has one maximum: two results of the suggestion step coincide. */
  lemma BestUnique(matched: Matcher, word: string, cands: seq<string>, x: string, y: string)
    requires x in cands && y in cands
    requires Passes(Ratio(matched, x, word)) && Passes(Ratio(matched, y, word))
    requires !Ranks(Ratio(matched, x, word), x, Ratio(matched, y, word), y)
    requires !Ranks(Ratio(matched, y, word), y, Ratio(matched, x, word), x)
    ensures x == y
  {
    if x != y {
      StrLessTotal(x, y);
    }
  }

  /** A word equal to a known command, ignoring case, is suggested as that command lower-cased. */
  lemma ExactIsSuggested(c: Collector, matched: Matcher, word: string, k: nat)
    requires Sound(matched)
    requires k < |c.known| && Lower(c.known[k]) == Lower(word)
    ensures SuggestCorrection(c, matched, word) == Some(Lower(word))
  {
    var w := Lower(word);
    var r := SuggestCorrection(c, matched, word);
    PerfectPasses(matched, w);
    assert r.Some? by {
      assert LowerAll(c.known)[k] == w;
    }
    if r.value != w {
      PerfectBeats(matched, w, r.value);
      assert false;
    }
  }

  /** A string compared with itself scores 1, which reaches the cutoff. */
  lemma PerfectPasses(matched: Matcher, w: string)
    requires Sound(matched)
    ensures Ratio(matched, w, w).num == Ratio(matched, w, w).den
    ensures Passes(Ratio(matched, w, w))
  {
  }

  /** A perfect match outranks every other candidate. */
  lemma PerfectBeats(matched: Matcher, w: string, x: string)
    requires Sound(matched) && x != w
    ensures Ranks(Ratio(matched, w, w), w, Ratio(matched, x, w), x)
  {
    var sw := Ratio(matched, w, w);
    var sx := Ratio(matched, x, w);
    PerfectPasses(matched, w);
    assert sx.num < sx.den;
    CancelPositive(sx.den, sx.num, sw.den);
    assert sw.num * sx.den == sx.den * sw.den;
  }

  // ---------------------------------------------------------------------------
  // Handler registry, notification and logging
  // ---------------------------------------------------------------------------

  /** The handlers registered for an event type, `[]` when there are none. */
  function HandlersOf(c: Collector, eventType: string): seq<nat>
  {
    if eventType in c.handlers then c.handlers[eventType] else []
  }

  /** `register_handler(eventType, h)`: append, creating the list on first use. */
  function RegisterHandler(c: Collector, eventType: string, h: nat): (r: Collector)
    ensures HandlersOf(r, eventType) == HandlersOf(c, eventType) + [h]
    ensures forall e :: e != eventType ==> HandlersOf(r, e) == HandlersOf(c, e)
    ensures r.known == c.known && r.log == c.log && r.calls == c.calls
  {
    c.(handlers := c.handlers[eventType := HandlersOf(c, eventType) + [h]])
  }

  /** The calls `handler(data)` for each handler, in order. */
  function CallsOf(hs: seq<nat>, data: Record): (r: seq<(nat, Record)>)
    ensures |r| == |hs| && forall i :: 0 <= i < |hs| ==> r[i] == (hs[i], data)
  {
    if hs == [] then [] else [(hs[0], data)] + CallsOf(hs[1..], data)
  }

  /** One logger line per handler that raised. */
  function FailureLines(eventType: string, failed: seq<nat>): (r: seq<LogLine>)
    ensures |r| == |failed| && forall i :: 0 <= i < |r| ==> r[i] == HandlerFailed(eventType)
  {
    if failed == [] then [] else [HandlerFailed(eventType)] + FailureLines(eventType, failed[1..])
  }

  /**
   `_notify_handlers(eventType, data)`: every handler of the type called once
   with `data`, in registration order; each exception is logged and swallowed.
   */
  function NotifyHandlers(c: Collector, eventType: string, data: Record, fails: (nat, Record) -> bool): (r: Collector)
    ensures r.calls == c.calls + CallsOf(HandlersOf(c, eventType), data)
    ensures r.log == c.log + FailureLines(eventType, Filter(HandlersOf(c, eventType), h => fails(h, data)))
    ensures r.known == c.known && r.handlers == c.handlers
    ensures eventType !in c.handlers ==> r == c
  {
    var hs := HandlersOf(c, eventType);
    var ds := FanOut.Deliver(hs, h => fails(h, data));
    FanOut.DeliverCallsAllInOrder(hs, h => fails(h, data));
    FanOut.DeliverLogsFaults(hs, h => fails(h, data));
    c.(calls := c.calls + CallsOf(FanOut.Called(ds), data),
       log := c.log + FailureLines(eventType, FanOut.Logged(ds)))
  }

  /** The record `log_error` builds; a missing or empty context becomes `{}`. */
  function MakeRecord(error: Exception, context: Option<map<string, Val>>): (r: Record)
    ensures r.kind == error.kind && r.message == error.message
    ensures context.None? ==> r.context == map[]
    ensures context.Some? ==> r.context == context.value
  {
    Record(error.kind, error.message, context.GetOr(map[]))
  }

  /** `log_error(error, context)`: log the record, then notify the `error_occurred` handlers once each. */
  function LogError(c: Collector, error: Exception, context: Option<map<string, Val>>, fails: (nat, Record) -> bool): (r: Collector)
    ensures |r.log| > |c.log| && r.log[|c.log|] == ErrorOccurred(MakeRecord(error, context))
    ensures r.calls == c.calls + CallsOf(HandlersOf(c, ErrorOccurredEvent), MakeRecord(error, context))
    ensures r.known == c.known && r.handlers == c.handlers
  {
    var rec := MakeRecord(error, context);
    NotifyHandlers(c.(log := c.log + [ErrorOccurred(rec)]), ErrorOccurredEvent, rec, fails)
  }

  /** Every `error_occurred` handler receives the record of each `log_error`, whatever earlier handlers raise. */
  lemma LogErrorReachesEveryHandler(c: Collector, error: Exception, context: Option<map<string, Val>>,
                                    fails: (nat, Record) -> bool, i: nat)
    requires i < |HandlersOf(c, ErrorOccurredEvent)|
    ensures LogError(c, error, context, fails).calls[|c.calls| + i]
            == (HandlersOf(c, ErrorOccurredEvent)[i], MakeRecord(error, context))
  {
  }
}
