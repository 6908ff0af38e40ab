/** The per-client request limiter, with clock readings in ticks of which a second has a fixed number. */
module RateLimiting {
  import opened Arithmetic
  import opened Options

  /** Clock ticks in a second. */
  const TICKS := 1_000_000_000

  datatype Entry = Entry(tokens: int, lastRefill: int)

  /** The limits of a limiter: the bucket size and the refill interval in seconds. */
  datatype Limits = Limits(maxTokens: int, interval: int)

  /** One request of a client whose entry is e: the new entry and whether the request is allowed. */
  function Request(e: Option<Entry>, l: Limits, now: int): (Entry, bool) {
    match e
    case None => (Entry(l.maxTokens - 1, now), true)
    case Some(entry) =>
      var filled := if ElapsedSeconds(entry.lastRefill, now) >= l.interval then Entry(l.maxTokens, now) else entry;
      if filled.tokens > 0 then (filled.(tokens := filled.tokens - 1), true) else (filled, false)
  }

  /** The duration cast to seconds, which drops the fraction. */
  function ElapsedSeconds(last: int, now: int): int {
    if now >= last then (now - last) / TICKS else -((last - now) / TICKS)
  }

  class RateLimiter {
    var limits: map<string, Entry>
    const maxTokens: int
    const refillRate: int
    const refillInterval: int

    function Configured(): Limits {
      Limits(maxTokens, refillInterval)
    }

    constructor (maxTokens: int := 5, refillRate: int := 5, refillIntervalSeconds: int := 60)
      ensures limits == map[] && Configured() == Limits(maxTokens, refillIntervalSeconds)
    {
      limits := map[];
      this.maxTokens, this.refillRate, this.refillInterval := maxTokens, refillRate, refillIntervalSeconds;
    }

    function EntryOf(identifier: string): Option<Entry>
      reads this
    {
      Lookup(limits, identifier)
    }

    /** Only the entry of the identifier changes. */
    method AllowRequest(identifier: string, now: int) returns (allowed: bool)
      modifies this
      ensures limits == old(limits)[identifier := Request(old(EntryOf(identifier)), Configured(), now).0]
      ensures allowed == Request(old(EntryOf(identifier)), Configured(), now).1
    {
      if identifier !in limits {
        limits := limits[identifier := Entry(maxTokens - 1, now)];
        return true;
      }
      var entry := limits[identifier];
      var timeSinceRefill := ElapsedSeconds(entry.lastRefill, now);
      if timeSinceRefill >= refillInterval {
        entry := entry.(tokens := maxTokens);
        entry := entry.(lastRefill := now);
      }
      if entry.tokens > 0 {
        entry := entry.(tokens := entry.tokens - 1);
        limits := limits[identifier := entry];
        return true;
      }
      limits := limits[identifier := entry];
      return false;
    }

    /** The calls of all clients in the order of their arrival; counts those that one client was granted. */
    method AllowAll(calls: seq<Call>, identifier: string) returns (granted: nat)
      modifies this
      ensures limits == Served(old(limits), Configured(), calls)
      ensures granted == Granted(old(limits), Configured(), calls, identifier)
    {
      granted := 0;
      for i := 0 to |calls|
        invariant Served(limits, Configured(), calls[i..]) == Served(old(limits), Configured(), calls)
        invariant granted + Granted(limits, Configured(), calls[i..], identifier) ==
                  Granted(old(limits), Configured(), calls, identifier)
      {
        assert calls[i..][0] == calls[i] && calls[i..][1..] == calls[i + 1..];
        var allowed := AllowRequest(calls[i].identifier, calls[i].now);
        if allowed && calls[i].identifier == identifier {
          granted := granted + 1;
        }
      }
    }

    method GetRemainingTokens(identifier: string) returns (tokens: int)
      ensures tokens == match EntryOf(identifier) case None => maxTokens case Some(e) => e.tokens
    {
      if identifier !in limits {
        return maxTokens;
      }
      return limits[identifier].tokens;
    }
  }

  // ---------- one client's requests ----------

  function After(e: Option<Entry>, l: Limits, times: seq<int>): Option<Entry>
    decreases |times|
  {
    if times == [] then e
    else After(Some(Request(e, l, times[0]).0), l, times[1..])
  }

  function Allowed(e: Option<Entry>, l: Limits, times: seq<int>): nat
    decreases |times|
  {
    if times == [] then 0
    else
      var r := Request(e, l, times[0]);
      (if r.1 then 1 else 0) + Allowed(Some(r.0), l, times[1..])
  }

  ghost predicate Ordered(times: seq<int>) {
    forall i, j :: 0 <= i < j < |times| ==> times[i] <= times[j]
  }

  function Window(l: Limits): int {
    l.interval * TICKS
  }

  ghost predicate Sane(l: Limits) {
    l.maxTokens >= 1 && l.interval >= 1
  }

  /** A refill happens exactly when a whole window has passed since the last one. */
  lemma RefillsAfterWindow(l: Limits, last: int, now: int)
    requires last <= now
    ensures ElapsedSeconds(last, now) >= l.interval <==> now - last >= Window(l)
    ensures Window(l) == l.interval * 1_000_000_000
  {
  }

  // ---------- the long-run bound ----------

  /** Whole windows in a span of ticks. */
  function Whole(span: int, w: int): (n: nat)
    requires w > 0
    decreases span
  {
    if span < w then 0 else 1 + Whole(span - w, w)
  }

  lemma {:induction false} WholeBounds(span: int, w: int)
    requires w > 0 && span >= 0
    ensures w * Whole(span, w) <= span < w * Whole(span, w) + w
    decreases span
  {
    if span >= w {
      WholeBounds(span - w, w);
      var n := Whole(span - w, w);
      assert w * (1 + n) == w + w * n;
    }
  }

  lemma {:induction false} MulStep(w: int, a: int, b: int)
    requires w > 0
    ensures a < b ==> w * a + w <= w * b
    decreases b - a
  {
    if a + 1 < b {
      MulStep(w, a, b - 1);
      assert w * b == w * (b - 1) + w;
    } else if a + 1 == b {
      assert w * b == w * a + w;
    }
  }

  lemma QuotientIs(span: int, w: int, q: int)
    requires w > 0 && w * q <= span < w * q + w
    ensures span / w == q
  {
    var d := span / w;
    assert w * d <= span < w * d + w;
    MulStep(w, q, d);
    MulStep(w, d, q);
  }

  lemma WholeIsQuotient(span: int, w: int)
    requires w > 0 && span >= 0
    ensures Whole(span, w) == span / w
  {
    WholeBounds(span, w);
    QuotientIs(span, w, Whole(span, w));
  }

  lemma {:induction false} WholeMonotone(a: int, b: int, w: int)
    requires w > 0 && a <= b
    ensures Whole(a, w) <= Whole(b, w)
    decreases b
  {
    if a >= w {
      WholeMonotone(a - w, b - w, w);
    }
  }

  /** From an entry with t tokens, a span allows at most t plus one full bucket per whole window in it. */
  lemma {:induction false} AllowedFromEntry(e: Entry, l: Limits, times: seq<int>, end: int, w: int)
    requires Sane(l) && w == Window(l) > 0 && 0 <= e.tokens <= l.maxTokens && Ordered(times)
    requires e.lastRefill <= end && forall i :: 0 <= i < |times| ==> e.lastRefill <= times[i] <= end
    ensures Allowed(Some(e), l, times) <= e.tokens + Times(l.maxTokens, Whole(end - e.lastRefill, w))
    decreases |times|
  {
    if times == [] {
    } else {
      var r := Request(Some(e), l, times[0]);
      RefillsAfterWindow(l, e.lastRefill, times[0]);
      assert forall i :: 0 <= i < |times[1..]| ==> times[1..][i] == times[i + 1];
      AllowedFromEntry(r.0, l, times[1..], end, w);
      if times[0] - e.lastRefill >= w {
        WholeMonotone(end - times[0], end - e.lastRefill - w, w);
        TimesMonotone(l.maxTokens, 1 + Whole(end - times[0], w), Whole(end - e.lastRefill, w));
      }
    }
  }

  lemma LongRunBuckets(l: Limits, times: seq<int>, w: int)
    requires Sane(l) && w == Window(l) > 0 && Ordered(times) && times != []
    ensures Allowed(None, l, times) <= Times(l.maxTokens, 1 + Whole(times[|times| - 1] - times[0], w))
  {
    assert forall i :: 0 <= i < |times[1..]| ==> times[1..][i] == times[i + 1];
    AllowedFromEntry(Entry(l.maxTokens - 1, times[0]), l, times[1..], times[|times| - 1], w);
  }

  /** In the time T after its first request a client gets at most maxTokens * (1 + floor(T / window)). */
  lemma LongRunBound(l: Limits, times: seq<int>)
    requires Sane(l) && Ordered(times) && times != []
    ensures Allowed(None, l, times) <= l.maxTokens * (1 + (times[|times| - 1] - times[0]) / Window(l))
  {
    LongRunBuckets(l, times, Window(l));
    WholeIsQuotient(times[|times| - 1] - times[0], Window(l));
  }

  // ---------- the other configurations ----------

  /** Without tokens only a client's very first request passes. */
  lemma {:induction false} NoTokens(e: Entry, l: Limits, times: seq<int>)
    requires l.maxTokens <= 0 && e.tokens <= 0
    ensures Allowed(Some(e), l, times) == 0
    decreases |times|
  {
    if times == [] {
    } else {
      NoTokens(Request(Some(e), l, times[0]).0, l, times[1..]);
    }
  }

  /** Without an interval every request refills first, so with a token every request passes. */
  lemma {:induction false} NoInterval(e: Option<Entry>, l: Limits, times: seq<int>)
    requires l.maxTokens >= 1 && l.interval <= 0 && Ordered(times)
    requires e.Some? && times != [] ==> e.value.lastRefill <= times[0]
    ensures Allowed(e, l, times) == |times|
    decreases |times|
  {
    if times == [] {
    } else {
      assert forall i :: 0 <= i < |times[1..]| ==> times[1..][i] == times[i + 1];
      NoInterval(Some(Request(e, l, times[0]).0), l, times[1..]);
    }
  }

  /** What the limiter does when a limit is not positive. */
  lemma DegenerateLimits(l: Limits, times: seq<int>)
    requires Ordered(times) && times != []
    ensures l.maxTokens <= 0 ==> Allowed(None, l, times) == 1
    ensures l.maxTokens >= 1 && l.interval <= 0 ==> Allowed(None, l, times) == |times|
  {
    if l.maxTokens <= 0 {
      NoTokens(Entry(l.maxTokens - 1, times[0]), l, times[1..]);
    } else if l.interval <= 0 {
      NoInterval(None, l, times);
    }
  }

  // ---------- the window bound ----------

  /** After any request at least one token is spent, and the last refill is not in the future. */
  ghost predicate Spent(e: Entry, l: Limits, now: int) {
    0 <= e.tokens <= l.maxTokens - 1 && e.lastRefill <= now
  }

  lemma {:induction false} SpentAfter(e: Option<Entry>, l: Limits, times: seq<int>, from: int, now: int)
    requires Sane(l) && Ordered(times) && (e.Some? ==> Spent(e.value, l, from)) && from <= now
    requires forall i :: 0 <= i < |times| ==> from <= times[i] <= now
    ensures After(e, l, times).Some? ==> Spent(After(e, l, times).value, l, now)
    decreases |times|
  {
    if times == [] {
    } else {
      var r := Request(e, l, times[0]);
      assert Spent(r.0, l, times[0]);
      assert forall i :: 0 <= i < |times[1..]| ==> times[1..][i] == times[i + 1];
      SpentAfter(Some(r.0), l, times[1..], times[0], now);
    }
  }

  /** Once refilled inside a window, only the tokens at hand are left for the rest of it. */
  lemma {:induction false} NoSecondRefill(e: Entry, l: Limits, times: seq<int>, start: int)
    requires Sane(l) && 0 <= e.tokens && Ordered(times) && start <= e.lastRefill
    requires forall i :: 0 <= i < |times| ==> e.lastRefill <= times[i] < start + Window(l)
    ensures Allowed(Some(e), l, times) <= e.tokens
    decreases |times|
  {
    if times == [] {
    } else {
      RefillsAfterWindow(l, e.lastRefill, times[0]);
      var r := Request(Some(e), l, times[0]);
      assert forall i :: 0 <= i < |times[1..]| ==> times[1..][i] == times[i + 1];
      NoSecondRefill(r.0, l, times[1..], start);
    }
  }

  /** Before the first refill the old tokens count, after it one full bucket. */
  lemma {:induction false} OneRefill(e: Entry, l: Limits, times: seq<int>, start: int)
    requires Sane(l) && 0 <= e.tokens && Ordered(times) && e.lastRefill <= start
    requires forall i :: 0 <= i < |times| ==> start <= times[i] < start + Window(l)
    ensures Allowed(Some(e), l, times) <= e.tokens + l.maxTokens
    decreases |times|
  {
    if times == [] {
    } else {
      RefillsAfterWindow(l, e.lastRefill, times[0]);
      var r := Request(Some(e), l, times[0]);
      assert forall i :: 0 <= i < |times[1..]| ==> times[1..][i] == times[i + 1];
      if times[0] - e.lastRefill >= Window(l) {
        NoSecondRefill(r.0, l, times[1..], start);
      } else {
        OneRefill(r.0, l, times[1..], start);
      }
    }
  }

  /** In any half-open window of one interval a client gets at most 2 * maxTokens - 1 requests, whatever it sent before. */
  lemma WindowBound(l: Limits, before: seq<int>, inside: seq<int>, start: int)
    requires Sane(l) && Ordered(before) && Ordered(inside)
    requires forall i :: 0 <= i < |before| ==> before[i] <= start
    requires forall i :: 0 <= i < |inside| ==> start <= inside[i] < start + Window(l)
    ensures Allowed(After(None, l, before), l, inside) <= 2 * l.maxTokens - 1
  {
    if before != [] {
      SpentAfter(None, l, before, before[0], start);
    }
    var e := After(None, l, before);
    if e.Some? {
      OneRefill(e.value, l, inside, start);
    } else if inside != [] {
      assert forall i :: 0 <= i < |inside[1..]| ==> inside[1..][i] == inside[i + 1];
      NoSecondRefill(Entry(l.maxTokens - 1, inside[0]), l, inside[1..], start);
    }
  }

  /** n requests at the same time. */
  function Burst(n: nat, t: int): seq<int> {
    seq(n, i => t)
  }

  /** A burst spends the tokens at hand one by one. */
  lemma {:induction false} BurstSpends(e: Entry, l: Limits, n: nat, t: int, rest: seq<int>)
    requires Sane(l) && n <= e.tokens && e.lastRefill <= t < e.lastRefill + Window(l)
    ensures Allowed(Some(e), l, Burst(n, t) + rest) == n + Allowed(Some(e.(tokens := e.tokens - n)), l, rest)
    decreases n
  {
    if n == 0 {
      assert Burst(n, t) + rest == rest;
    } else {
      RefillsAfterWindow(l, e.lastRefill, t);
      assert (Burst(n, t) + rest)[1..] == Burst(n - 1, t) + rest;
      BurstSpends(e.(tokens := e.tokens - 1), l, n - 1, t, rest);
    }
  }

  /** The window bound is attained: spend the bucket just before the refill and again right after it. */
  lemma WindowBoundIsTight(l: Limits)
    requires Sane(l)
    ensures var start := Window(l) - 1;
            var inside := Burst(l.maxTokens - 1, start) + Burst(l.maxTokens, start + 1);
            && Ordered(inside) && (forall i :: 0 <= i < |inside| ==> start <= inside[i] < start + Window(l))
            && Allowed(After(None, l, [0]), l, inside) == 2 * l.maxTokens - 1
  {
    var start := Window(l) - 1;
    var first := Entry(l.maxTokens - 1, 0);
    var second := Burst(l.maxTokens, start + 1);
    assert [0][1..] == [];
    assert After(None, l, [0]) == After(Some(first), l, []) == Some(first);
    BurstSpends(first, l, l.maxTokens - 1, start, second);
    SecondBurst(l, start + 1);
  }

  /** An empty bucket a full window old allows a whole bucket again. */
  lemma SecondBurst(l: Limits, t: int)
    requires Sane(l) && t == Window(l)
    ensures Allowed(Some(Entry(0, 0)), l, Burst(l.maxTokens, t)) == l.maxTokens
  {
    RefillsAfterWindow(l, 0, t);
    var rest := Burst(l.maxTokens - 1, t);
    assert Burst(l.maxTokens, t)[1..] == rest + [];
    BurstSpends(Entry(l.maxTokens - 1, t), l, l.maxTokens - 1, t, []);
  }

  // ---------- many clients ----------

  /** A request of a client at a time. */
  datatype Call = Call(identifier: string, now: int)

  ghost predicate InOrder(calls: seq<Call>) {
    forall i, j :: 0 <= i < j < |calls| ==> calls[i].now <= calls[j].now
  }

  function Lookup(m: map<string, Entry>, identifier: string): Option<Entry> {
    if identifier in m then Some(m[identifier]) else None
  }

  function Served(m: map<string, Entry>, l: Limits, calls: seq<Call>): map<string, Entry>
    decreases |calls|
  {
    if calls == [] then m
    else
      var c := calls[0];
      Served(m[c.identifier := Request(Lookup(m, c.identifier), l, c.now).0], l, calls[1..])
  }

  function TimesOf(calls: seq<Call>, identifier: string): seq<int> {
    if calls == [] then []
    else (if calls[0].identifier == identifier then [calls[0].now] else []) + TimesOf(calls[1..], identifier)
  }

  /** How many requests of one client are allowed. */
  function Granted(m: map<string, Entry>, l: Limits, calls: seq<Call>, identifier: string): nat
    decreases |calls|
  {
    if calls == [] then 0
    else
      var c := calls[0];
      var r := Request(Lookup(m, c.identifier), l, c.now);
      (if c.identifier == identifier && r.1 then 1 else 0) +
      Granted(m[c.identifier := r.0], l, calls[1..], identifier)
  }

  /** What a client gets depends on its own requests only. */
  lemma {:induction false} ClientsAreIndependent(m: map<string, Entry>, l: Limits, calls: seq<Call>, id: string)
    ensures Lookup(Served(m, l, calls), id) == After(Lookup(m, id), l, TimesOf(calls, id))
    ensures Granted(m, l, calls, id) == Allowed(Lookup(m, id), l, TimesOf(calls, id))
    decreases |calls|
  {
    if calls == [] {
    } else {
      var c := calls[0];
      ClientsAreIndependent(m[c.identifier := Request(Lookup(m, c.identifier), l, c.now).0], l, calls[1..], id);
      if c.identifier == id {
        assert TimesOf(calls, id)[1..] == TimesOf(calls[1..], id);
      } else {
        assert TimesOf(calls, id) == TimesOf(calls[1..], id);
      }
    }
  }

  lemma {:induction false} TimesAreOrdered(calls: seq<Call>, id: string, from: int)
    requires InOrder(calls)
    requires forall i :: 0 <= i < |calls| ==> from <= calls[i].now
    ensures Ordered(TimesOf(calls, id))
    ensures forall i :: 0 <= i < |TimesOf(calls, id)| ==> from <= TimesOf(calls, id)[i]
    decreases |calls|
  {
    if calls == [] {
    } else {
      TimesAreOrdered(calls[1..], id, calls[0].now);
    }
  }

  /** The long-run bound holds for every client in any interleaving of clients on one clock. */
  lemma EveryClientBounded(l: Limits, calls: seq<Call>, id: string)
    requires Sane(l) && InOrder(calls)
    ensures var times := TimesOf(calls, id);
            times != [] ==>
              Granted(map[], l, calls, id) <= l.maxTokens * (1 + (times[|times| - 1] - times[0]) / Window(l))
  {
    ClientsAreIndependent(map[], l, calls, id);
    if calls != [] {
      TimesAreOrdered(calls, id, calls[0].now);
      if TimesOf(calls, id) != [] {
        LongRunBound(l, TimesOf(calls, id));
      }
    }
  }

  /** Every client's requests lie where all requests lie. */
  lemma {:induction false} TimesBetween(calls: seq<Call>, id: string, from: int, to: int)
    requires forall i :: 0 <= i < |calls| ==> from <= calls[i].now <= to
    ensures forall i :: 0 <= i < |TimesOf(calls, id)| ==> from <= TimesOf(calls, id)[i] <= to
    decreases |calls|
  {
    if calls == [] {
    } else {
      TimesBetween(calls[1..], id, from, to);
    }
  }

  /** The window bound holds for every client in any interleaving, whatever all clients sent before the window. */
  lemma EveryClientWindowBounded(l: Limits, before: seq<Call>, inside: seq<Call>, start: int, id: string)
    requires Sane(l) && InOrder(before) && InOrder(inside)
    requires forall i :: 0 <= i < |before| ==> before[i].now <= start
    requires forall i :: 0 <= i < |inside| ==> start <= inside[i].now < start + Window(l)
    ensures Granted(Served(map[], l, before), l, inside, id) <= 2 * l.maxTokens - 1
  {
    ClientsAreIndependent(map[], l, before, id);
    ClientsAreIndependent(Served(map[], l, before), l, inside, id);
    if before != [] {
      TimesAreOrdered(before, id, before[0].now);
      TimesBetween(before, id, before[0].now, start);
    }
    TimesAreOrdered(inside, id, start);
    TimesBetween(inside, id, start, start + Window(l) - 1);
    WindowBound(l, TimesOf(before, id), TimesOf(inside, id), start);
  }
}
