/**
 The shell's event bus (`EventBus` in dockevos/__main__.py and container-os.py):
 per-type subscriber lists in subscription order and a history ring of the
 last 100 events. Delivery itself runs in the shell, whose subscribers
 (the usage tracker among them) change shell state.
 */
module EventBus {
  import opened Common

  /** An emitted event; the timestamp is not modelled. */
  datatype Event = Event(kind: string, data: map<string, Val>)

  datatype Bus<S> = Bus(subscribers: map<string, seq<S>>, history: seq<Event>)

  /** `deque(maxlen=100)`. */
  const HistoryLimit: nat := 100

  ghost predicate Valid<S>(b: Bus<S>)
  {
    |b.history| <= HistoryLimit
  }

  function New<S>(): (b: Bus<S>)
    ensures Valid(b) && b.history == []
  {
    Bus(map[], [])
  }

  /** `subscribers.get(kind, [])`. */
  function SubscribersOf<S>(b: Bus<S>, kind: string): seq<S>
  {
    if kind in b.subscribers then b.subscribers[kind] else []
  }

  /** `subscribe(kind, s)`: append, no de-duplication. */
  function Subscribe<S>(b: Bus<S>, kind: string, s: S): (r: Bus<S>)
    ensures SubscribersOf(r, kind) == SubscribersOf(b, kind) + [s]
    ensures forall k :: k != kind ==> SubscribersOf(r, k) == SubscribersOf(b, k)
    ensures r.history == b.history
  {
    Bus(b.subscribers[kind := SubscribersOf(b, kind) + [s]], b.history)
  }

  /** Append to a full-capacity deque: the oldest event falls out. */
  function Remember(h: seq<Event>, e: Event): (r: seq<Event>)
    requires |h| <= HistoryLimit
    ensures r == Newest(h + [e], HistoryLimit)
    ensures |r| <= HistoryLimit && r[|r| - 1] == e
  {
    if |h| == HistoryLimit then h[1..] + [e] else h + [e]
  }

  /**
   The bookkeeping half of `emit`: record the event, and name the subscribers
   to call, which are those of its type only, in subscription order.
   */
  function Emit<S>(b: Bus<S>, e: Event): (r: (Bus<S>, seq<S>))
    requires Valid(b)
    ensures Valid(r.0)
    ensures r.0.history == Newest(b.history + [e], HistoryLimit)
    ensures |r.0.history| > 0 && r.0.history[|r.0.history| - 1] == e
    ensures r.0.subscribers == b.subscribers
    ensures r.1 == SubscribersOf(b, e.kind)
  {
    (Bus(b.subscribers, Remember(b.history, e)), SubscribersOf(b, e.kind))
  }

  /** The history after emitting `es` one after another. */
  function RememberAll(h: seq<Event>, es: seq<Event>): (r: seq<Event>)
    requires |h| <= HistoryLimit
    ensures |r| <= HistoryLimit
    decreases |es|
  {
    if es == [] then h else RememberAll(Remember(h, es[0]), es[1..])
  }

  /** After any run of emits the history is the newest 100 events ever emitted, oldest first. */
  lemma {:induction false} RememberAllKeepsNewest(h: seq<Event>, es: seq<Event>)
    requires |h| <= HistoryLimit
    ensures RememberAll(h, es) == Newest(h + es, HistoryLimit)
    decreases |es|
  {
    if es == [] {
      assert h + es == h;
    } else {
      var h1 := Remember(h, es[0]);
      RememberAllKeepsNewest(h1, es[1..]);
      assert h + es == (h + [es[0]]) + es[1..];
      NewestSuffix(h + [es[0]], es[1..], HistoryLimit);
    }
  }

  /** Emitting 150 events from an empty history keeps exactly the last 100. */
  lemma OneHundredFiftyEvents(es: seq<Event>)
    requires |es| == 150
    ensures RememberAll([], es) == es[50..]
  {
    RememberAllKeepsNewest([], es);
    assert [] + es == es;
  }
}
