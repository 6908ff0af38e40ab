/** Exactly which requests the limiter grants: the first maxTokens of every bucket, and when a bucket begins. */
module RateGrants {
  import opened Options
  import opened RateLimiting

  /** The position of the request that filled the bucket a request draws from: the first request of all, or one that
      came a whole window after the one that filled the bucket before. */
  function BucketStart(times: seq<int>, window: int, i: nat): (b: nat)
    requires i < |times|
    ensures b <= i
  {
    if i == 0 then 0
    else
      var b := BucketStart(times, window, i - 1);
      if times[i] - times[b] >= window then i else b
  }

  /** Whether the limiter allows the request at a position of a client's history. */
  function GrantedAt(l: Limits, times: seq<int>, i: nat): bool
    requires i < |times|
  {
    Request(After(None, l, times[..i]), l, times[i]).1
  }

  lemma {:induction false} AfterNext(e: Option<Entry>, l: Limits, times: seq<int>, t: int)
    ensures After(e, l, times + [t]) == Some(Request(After(e, l, times), l, t).0)
    ensures Allowed(e, l, times + [t]) == Allowed(e, l, times) + if Request(After(e, l, times), l, t).1 then 1 else 0
    decreases |times|
  {
    if times == [] {
      assert (times + [t])[1..] == [];
    } else {
      assert (times + [t])[1..] == times[1..] + [t];
      AfterNext(Some(Request(e, l, times[0]).0), l, times[1..], t);
    }
  }

  lemma {:induction false} BucketStarts(times: seq<int>, window: int, i: nat)
    requires i < |times| && window > 0
    ensures var b := BucketStart(times, window, i);
            && BucketStart(times, window, b) == b && times[i] - times[b] < window
            && (b > 0 ==> times[b] - times[BucketStart(times, window, b - 1)] >= window)
    decreases i
  {
    if i == 0 {
    } else {
      BucketStarts(times, window, i - 1);
    }
  }

  /** The entry after a request: the bucket's fill time, and what its requests so far have left of it. */
  lemma {:induction false} EntryAfter(l: Limits, times: seq<int>, i: nat)
    requires Sane(l) && Ordered(times) && i < |times|
    ensures var b := BucketStart(times, Window(l), i);
            && After(None, l, times[..i + 1]) ==
               Some(Entry(if i + 1 - b <= l.maxTokens then l.maxTokens - (i + 1 - b) else 0, times[b]))
            && (GrantedAt(l, times, i) <==> i - b < l.maxTokens)
    decreases i
  {
    assert times[..i + 1] == times[..i] + [times[i]];
    AfterNext(None, l, times[..i], times[i]);
    if i == 0 {
      assert times[..0] == [];
    } else {
      EntryAfter(l, times, i - 1);
      RefillsAfterWindow(l, times[BucketStart(times, Window(l), i - 1)], times[i]);
    }
  }

  /** A request is allowed exactly when fewer than maxTokens requests have come since its bucket was filled. */
  lemma GrantedIff(l: Limits, times: seq<int>, i: nat)
    requires Sane(l) && Ordered(times) && i < |times|
    ensures GrantedAt(l, times, i) <==> i - BucketStart(times, Window(l), i) < l.maxTokens
  {
    EntryAfter(l, times, i);
  }

  /** Nobody is shut out: a client that was allowed nothing during the last window is allowed now, however often it
      was refused meanwhile. */
  lemma QuietClientIsAllowed(l: Limits, times: seq<int>, i: nat)
    requires Sane(l) && Ordered(times) && i < |times|
    requires forall j :: 0 <= j < i && GrantedAt(l, times, j) ==> times[i] - times[j] >= Window(l)
    ensures GrantedAt(l, times, i)
  {
    var b := BucketStart(times, Window(l), i);
    BucketStarts(times, Window(l), i);
    GrantedIff(l, times, i);
    GrantedIff(l, times, b);
    assert b < i ==> GrantedAt(l, times, b);
  }

  /** The requests from b up to e draw from one bucket, filled by the first of them. */
  ghost predicate OneBucket(times: seq<int>, window: int, b: nat, e: nat)
    requires b < e <= |times|
  {
    forall i :: b <= i < e ==> BucketStart(times, window, i) == b
  }

  /** Each bucket grants its requests until maxTokens of them are granted. */
  lemma {:induction false} BucketGrants(l: Limits, times: seq<int>, b: nat, e: nat)
    requires Sane(l) && Ordered(times) && b < e <= |times| && OneBucket(times, Window(l), b, e)
    ensures Allowed(None, l, times[..e]) - Allowed(None, l, times[..b]) ==
            if e - b <= l.maxTokens then e - b else l.maxTokens
    decreases e
  {
    assert times[..e] == times[..e - 1] + [times[e - 1]];
    AfterNext(None, l, times[..e - 1], times[e - 1]);
    GrantedIff(l, times, e - 1);
    if e - 1 == b {
    } else {
      BucketGrants(l, times, b, e - 1);
    }
  }

  // ---------- many clients ----------

  /** A client's requests followed by one more. */
  lemma {:induction false} TimesNext(calls: seq<Call>, c: Call)
    ensures TimesOf(calls + [c], c.identifier) == TimesOf(calls, c.identifier) + [c.now]
    decreases |calls|
  {
    if calls == [] {
      assert (calls + [c])[1..] == [];
    } else {
      assert (calls + [c])[1..] == calls[1..] + [c];
      TimesNext(calls[1..], c);
    }
  }

  /** In any interleaving of clients the next call is allowed exactly when fewer than maxTokens requests of the same
      client have come since that client's bucket was filled. */
  lemma EveryCallGrantedIff(l: Limits, calls: seq<Call>, c: Call)
    requires Sane(l) && InOrder(calls + [c])
    ensures var times := TimesOf(calls, c.identifier) + [c.now];
            Request(Lookup(Served(map[], l, calls), c.identifier), l, c.now).1 <==>
            |times| - 1 - BucketStart(times, Window(l), |times| - 1) < l.maxTokens
  {
    var times := TimesOf(calls, c.identifier) + [c.now];
    ClientsAreIndependent(map[], l, calls, c.identifier);
    TimesNext(calls, c);
    TimesAreOrdered(calls + [c], c.identifier, (calls + [c])[0].now);
    assert times[..|times| - 1] == TimesOf(calls, c.identifier);
    GrantedIff(l, times, |times| - 1);
  }
}
