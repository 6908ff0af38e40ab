/** The stream buffer over arbitrary traces: it refines a bounded byte queue with a writable area behind it. */
module StreamTraces {
  import opened Options
  import opened StreamBuffers

  /** A byte of the buffer, or None where the buffer promises nothing about its value. */
  type Cell = Option<Byte>

  function Known(bytes: seq<Byte>): (cells: seq<Cell>)
    ensures |cells| == |bytes|
  {
    seq(|bytes|, i requires 0 <= i < |bytes| => Some(bytes[i]))
  }

  function Unknown(n: nat): (cells: seq<Cell>)
    ensures |cells| == n
  {
    seq(n, i => None)
  }

  /** The queue, the area that may be written behind it, and the bytes already consumed in front of it. */
  datatype Stream = Stream(gap: nat, queue: seq<Cell>, area: seq<Cell>)

  /** The uses of a buffer. Underflow and Overflow are what reading and putting a character come down to; no
      character stands for end of file. */
  datatype Use =
    | Prepare(n: nat)
    | Write(at: nat, bytes: seq<Byte>)
    | Commit(n: nat)
    | Consume(n: nat)
    | Underflow
    | Overflow(c: Option<Byte>)

  /** A use works, raises the length error and leaves what the throw leaves, or writes outside the area. */
  datatype Outcome =
    | Running(s: Stream)
    | LengthError(s: Stream)
    | OutOfArea

  /** Making room leaves a large enough area alone; otherwise the queue slides to the front and the new area holds
      arbitrary bytes. */
  function Reserved(s: Stream, n: nat): Stream {
    if n <= |s.area| then s else Stream(0, s.queue, Unknown(Max(n, s.gap + |s.area|)))
  }

  /** The bytes have moved but the offsets have not. */
  function Thrown(s: Stream): Stream {
    s.(queue := AfterThrow(s.queue, s.gap))
  }

  function Next(s: Stream, use: Use, maxSize: nat): Outcome {
    match use
    case Prepare(n) =>
      if |s.queue| + n <= maxSize then Running(Reserved(s, n)) else LengthError(Thrown(s))
    case Write(at, bytes) =>
      if at + |bytes| <= |s.area| then Running(s.(area := Overwritten(s.area, at, Known(bytes)))) else OutOfArea
    case Commit(n) =>
      var k := Min(n, |s.area|);
      Running(Stream(s.gap, s.queue + s.area[..k], s.area[k..]))
    case Consume(n) =>
      var k := Min(n, |s.queue|);
      Running(Stream(s.gap + k, s.queue[k..], s.area))
    case Underflow => Running(s)
    case Overflow(None) => Running(s)
    case Overflow(Some(b)) =>
      if |s.queue| >= maxSize then LengthError(Thrown(s))
      else
        var r := if s.area == [] then Reserved(s, Min(maxSize - |s.queue|, BUFFER_DELTA)) else s;
        Running(Stream(r.gap, r.queue + [Some(b)], r.area[1..]))
  }

  /** A buffer can be used on after a length error, but not after a write outside the area. */
  function Then(o: Outcome, use: Use, maxSize: nat): Outcome {
    if o.OutOfArea? then o else Next(o.s, use, maxSize)
  }

  function Trace(s: Stream, uses: seq<Use>, maxSize: nat): Outcome {
    if uses == [] then Running(s) else Then(Trace(s, uses[..|uses| - 1], maxSize), uses[|uses| - 1], maxSize)
  }

  /** For each use whether it worked. */
  function Answers(s: Stream, uses: seq<Use>, maxSize: nat): seq<bool> {
    if uses == [] then []
    else Answers(s, uses[..|uses| - 1], maxSize) + [Trace(s, uses, maxSize).Running?]
  }

  // ---------- refinement ----------

  ghost predicate Matches(bytes: seq<Byte>, cells: seq<Cell>) {
    |bytes| == |cells| && forall i :: 0 <= i < |cells| && cells[i].Some? ==> bytes[i] == cells[i].value
  }

  lemma KnownMatches(bytes: seq<Byte>, other: seq<Byte>)
    ensures Matches(bytes, Known(other)) <==> bytes == other
  {
  }

  ghost predicate Refines(sb: StreamBuf, s: Stream)
    reads sb, sb.buffer
  {
    sb.Valid() && sb.gptr == s.gap && Matches(sb.Queue(), s.queue) && Matches(sb.Area(), s.area)
  }

  /** What is known of a buffer is everything. */
  function Exact(sb: StreamBuf): Stream
    requires sb.Valid()
    reads sb, sb.buffer
  {
    Stream(sb.gptr, Known(sb.Queue()), Known(sb.Area()))
  }

  ghost predicate Meets(sb: StreamBuf, ok: bool, o: Outcome)
    reads sb, sb.buffer
  {
    sb.Valid() && (ok <==> o.Running?) && (!o.OutOfArea? ==> Refines(sb, o.s))
  }

  lemma MatchesConcat(a: seq<Byte>, ca: seq<Cell>, b: seq<Byte>, cb: seq<Cell>)
    requires Matches(a, ca) && Matches(b, cb)
    ensures Matches(a + b, ca + cb)
  {
  }

  lemma MatchesSlices(bytes: seq<Byte>, cells: seq<Cell>, k: nat)
    requires Matches(bytes, cells) && k <= |cells|
    ensures |bytes| == |cells| && Matches(bytes[..k], cells[..k]) && Matches(bytes[k..], cells[k..])
  {
  }

  lemma MatchesOverwritten(area: seq<Byte>, cells: seq<Cell>, at: nat, bytes: seq<Byte>)
    requires Matches(area, cells) && at + |bytes| <= |cells|
    ensures |area| == |cells|
    ensures Matches(Overwritten(area, at, bytes), Overwritten(cells, at, Known(bytes)))
  {
  }

  lemma UnknownMatches(bytes: seq<Byte>)
    ensures Matches(bytes, Unknown(|bytes|))
  {
  }

  lemma MatchesLength(bytes: seq<Byte>, cells: seq<Cell>)
    requires Matches(bytes, cells)
    ensures |bytes| == |cells|
  {
  }

  lemma MatchesAfterThrow(bytes: seq<Byte>, cells: seq<Cell>, gap: nat)
    requires Matches(bytes, cells)
    ensures Matches(AfterThrow(bytes, gap), AfterThrow(cells, gap))
  {
  }

  method ApplyPrepare(sb: StreamBuf, n: nat, ghost s: Stream) returns (ok: bool)
    requires Refines(sb, s)
    modifies sb, sb.buffer
    ensures sb.buffer == old(sb.buffer) || fresh(sb.buffer)
    ensures Meets(sb, ok, Next(s, Prepare(n), sb.maxSize))
  {
    hide Matches, StreamBuf.Queue, StreamBuf.Area;
    ghost var queue, area := sb.Queue(), sb.Area();
    MatchesLength(queue, s.queue);
    MatchesLength(area, s.area);
    MatchesAfterThrow(queue, s.queue, s.gap);
    hide Unknown, AfterThrow;
    ok := sb.Prepare(n);
    if ok {
      assert sb.Queue() == queue;
      if n <= |area| {
        assert sb.Area() == area;
      } else {
        UnknownMatches(sb.Area());
        assert Reserved(s, n).area == Unknown(|sb.Area()|);
      }
    }
  }

  method ApplyWrite(sb: StreamBuf, at: nat, bytes: seq<Byte>, ghost s: Stream) returns (ok: bool)
    requires Refines(sb, s)
    modifies sb, sb.buffer
    ensures sb.buffer == old(sb.buffer)
    ensures Meets(sb, ok, Next(s, Write(at, bytes), sb.maxSize))
  {
    hide Matches, Overwritten, StreamBuf.Queue, StreamBuf.Area;
    MatchesLength(sb.Area(), s.area);
    ok := at + |bytes| <= sb.epptr - sb.pptr;
    if ok {
      MatchesOverwritten(sb.Area(), s.area, at, bytes);
      sb.Write(at, bytes);
    }
  }

  method ApplyCommit(sb: StreamBuf, n: nat, ghost s: Stream)
    requires Refines(sb, s)
    modifies sb
    ensures sb.buffer == old(sb.buffer)
    ensures Meets(sb, true, Next(s, Commit(n), sb.maxSize))
  {
    hide Matches, StreamBuf.Queue, StreamBuf.Area;
    ghost var queue, area := sb.Queue(), sb.Area();
    MatchesLength(area, s.area);
    ghost var k := Min(n, |s.area|);
    MatchesSlices(area, s.area, k);
    MatchesConcat(queue, s.queue, area[..k], s.area[..k]);
    sb.Commit(n);
    assert sb.Queue() == queue + area[..k] && sb.Area() == area[k..];
  }

  method ApplyConsume(sb: StreamBuf, n: nat, ghost s: Stream)
    requires Refines(sb, s)
    modifies sb
    ensures sb.buffer == old(sb.buffer)
    ensures Meets(sb, true, Next(s, Consume(n), sb.maxSize))
  {
    hide Matches, StreamBuf.Queue, StreamBuf.Area;
    ghost var queue, gap := sb.Queue(), sb.gptr;
    MatchesLength(queue, s.queue);
    ghost var k := Min(n, |s.queue|);
    MatchesSlices(queue, s.queue, k);
    sb.Consume(n);
    assert sb.Queue() == queue[k..] && sb.gptr == gap + k;
  }

  method ApplyUnderflow(sb: StreamBuf, ghost s: Stream)
    requires Refines(sb, s)
    modifies sb
    ensures sb.buffer == old(sb.buffer)
    ensures Meets(sb, true, Next(s, Underflow, sb.maxSize))
  {
    hide Matches, StreamBuf.Queue, StreamBuf.Area;
    var next := sb.Underflow();
  }

  method ApplyEndOfFile(sb: StreamBuf, ghost s: Stream) returns (ok: bool)
    requires Refines(sb, s)
    modifies sb, sb.buffer
    ensures sb.buffer == old(sb.buffer) || fresh(sb.buffer)
    ensures Meets(sb, ok, Next(s, Overflow(None), sb.maxSize))
  {
    hide Matches, StreamBuf.Queue, StreamBuf.Area;
    ghost var queue, area := sb.Queue(), sb.Area();
    ok := sb.Overflow(None);
    assert sb.Queue() == queue && sb.Area() == area;
  }

  /** What the abstract put does in each of its three cases. */
  lemma PutCases(s: Stream, b: Byte, maxSize: nat)
    ensures var o := Next(s, Overflow(Some(b)), maxSize);
            if |s.queue| >= maxSize then o == LengthError(Thrown(s))
            else if s.area != [] then o == Running(Stream(s.gap, s.queue + [Some(b)], s.area[1..]))
            else
              var room := Max(Min(maxSize - |s.queue|, BUFFER_DELTA), s.gap);
              room > 0 && o == Running(Stream(0, s.queue + [Some(b)], Unknown(room - 1)))
  {
    if |s.queue| < maxSize && s.area == [] {
      UnknownTail(Max(Min(maxSize - |s.queue|, BUFFER_DELTA), s.gap));
    }
  }

  method ApplyPut(sb: StreamBuf, b: Byte, ghost s: Stream) returns (ok: bool)
    requires Refines(sb, s)
    modifies sb, sb.buffer
    ensures sb.buffer == old(sb.buffer) || fresh(sb.buffer)
    ensures Meets(sb, ok, Next(s, Overflow(Some(b)), sb.maxSize))
  {
    hide Matches, Unknown, AfterThrow, Next, StreamBuf.Queue, StreamBuf.Area;
    ghost var queue, area := sb.Queue(), sb.Area();
    MatchesLength(queue, s.queue);
    MatchesLength(area, s.area);
    PutCases(s, b, sb.maxSize);
    ok := sb.Overflow(Some(b));
    if !ok {
      MatchesAfterThrow(queue, s.queue, s.gap);
    } else {
      OneMatches(b);
      MatchesConcat(queue, s.queue, [b], [Some(b)]);
      if s.area != [] {
        MatchesSlices(area, s.area, 1);
      } else {
        UnknownMatches(sb.Area());
      }
    }
  }

  lemma UnknownTail(n: nat)
    requires n > 0
    ensures Unknown(n)[1..] == Unknown(n - 1)
  {
  }

  lemma OneMatches(b: Byte)
    ensures Matches([b], [Some(b)])
  {
  }

  method Apply(sb: StreamBuf, use: Use, ghost s: Stream) returns (ok: bool)
    requires Refines(sb, s)
    modifies sb, sb.buffer
    ensures sb.buffer == old(sb.buffer) || fresh(sb.buffer)
    ensures Meets(sb, ok, Next(s, use, sb.maxSize))
  {
    hide Matches, Next, StreamBuf.Queue, StreamBuf.Area;
    ok := true;
    match use {
      case Prepare(n) => ok := ApplyPrepare(sb, n, s);
      case Write(at, bytes) => ok := ApplyWrite(sb, at, bytes, s);
      case Commit(n) => ApplyCommit(sb, n, s);
      case Consume(n) => ApplyConsume(sb, n, s);
      case Underflow => ApplyUnderflow(sb, s);
      case Overflow(None) => ok := ApplyEndOfFile(sb, s);
      case Overflow(Some(b)) => ok := ApplyPut(sb, b, s);
    }
  }

  /** Over every trace of uses, in any interleaving and across length errors: each use works exactly when it works
      on the queue, and the buffer holds what the queue says. */
  method Replay(sb: StreamBuf, uses: seq<Use>) returns (answers: seq<bool>)
    requires sb.Valid() && !Trace(Exact(sb), uses, sb.maxSize).OutOfArea?
    modifies sb, sb.buffer
    ensures sb.buffer == old(sb.buffer) || fresh(sb.buffer)
    ensures Refines(sb, Trace(old(Exact(sb)), uses, sb.maxSize).s)
    ensures answers == Answers(old(Exact(sb)), uses, sb.maxSize)
  {
    ghost var start := Exact(sb);
    ghost var s := start;
    KnownMatches(sb.Queue(), sb.Queue());
    KnownMatches(sb.Area(), sb.Area());
    answers := [];
    for i := 0 to |uses|
      invariant sb.buffer == old(sb.buffer) || fresh(sb.buffer)
      invariant !Trace(start, uses[..i], sb.maxSize).OutOfArea? && Trace(start, uses[..i], sb.maxSize).s == s
      invariant Refines(sb, s) && answers == Answers(start, uses[..i], sb.maxSize)
    {
      assert uses[..i + 1][..i] == uses[..i];
      LegalBefore(start, uses, i + 1, sb.maxSize);
      var ok := Apply(sb, uses[i], s);
      s := Next(s, uses[i], sb.maxSize).s;
      answers := answers + [ok];
    }
    assert uses[..|uses|] == uses;
  }

  lemma {:induction false} LegalBefore(s: Stream, uses: seq<Use>, i: nat, maxSize: nat)
    requires i <= |uses| && !Trace(s, uses, maxSize).OutOfArea?
    ensures !Trace(s, uses[..i], maxSize).OutOfArea?
    decreases |uses|
  {
    if i == |uses| {
      assert uses[..i] == uses;
    } else {
      assert uses[..|uses| - 1][..i] == uses[..i];
      LegalBefore(s, uses[..|uses| - 1], i, maxSize);
    }
  }

  // ---------- first in, first out ----------

  /** What a use appends to the queue; a put that raises the length error appends nothing. */
  function Added(s: Stream, use: Use, maxSize: nat): seq<Cell> {
    match use
    case Commit(n) => s.area[..Min(n, |s.area|)]
    case Overflow(Some(b)) => if |s.queue| < maxSize then [Some(b)] else []
    case _ => []
  }

  /** What a use takes from the front of the queue. */
  function Removed(s: Stream, use: Use): seq<Cell> {
    if use.Consume? then s.queue[..Min(use.n, |s.queue|)] else []
  }

  function Input(s: Stream, uses: seq<Use>, maxSize: nat): seq<Cell>
    requires !Trace(s, uses, maxSize).OutOfArea?
  {
    if uses == [] then []
    else
      var front := uses[..|uses| - 1];
      Input(s, front, maxSize) + Added(Trace(s, front, maxSize).s, uses[|uses| - 1], maxSize)
  }

  function Output(s: Stream, uses: seq<Use>, maxSize: nat): seq<Cell>
    requires !Trace(s, uses, maxSize).OutOfArea?
  {
    if uses == [] then []
    else
      var front := uses[..|uses| - 1];
      Output(s, front, maxSize) + Removed(Trace(s, front, maxSize).s, uses[|uses| - 1])
  }

  /** Every length error of the trace hits a buffer whose get offset is zero or past the size of the queue. */
  ghost predicate Harmless(s: Stream, uses: seq<Use>, maxSize: nat) {
    uses == [] ||
    var front := uses[..|uses| - 1];
    var before := Trace(s, front, maxSize);
    && Harmless(s, front, maxSize) && !before.OutOfArea? && !Trace(s, uses, maxSize).OutOfArea?
    && (Trace(s, uses, maxSize).LengthError? ==> before.s.gap == 0 || before.s.gap >= |before.s.queue|)
  }

  /** The get offset, the queue and the area together never pass the maximum size. */
  ghost predicate Bounded(s: Stream, maxSize: nat) {
    s.gap + |s.queue| + |s.area| <= maxSize
  }

  lemma NextBalance(s: Stream, use: Use, maxSize: nat)
    requires Bounded(s, maxSize) && !Next(s, use, maxSize).OutOfArea?
    requires Next(s, use, maxSize).LengthError? ==> s.gap == 0 || s.gap >= |s.queue|
    ensures var next := Next(s, use, maxSize).s;
            s.queue + Added(s, use, maxSize) == Removed(s, use) + next.queue && Bounded(next, maxSize)
  {
    AfterThrowKeeps(s.queue, s.gap);
  }

  lemma Chained<T>(start: seq<T>, input: seq<T>, output: seq<T>, mid: seq<T>, added: seq<T>, removed: seq<T>, end: seq<T>)
    requires start + input == output + mid && mid + added == removed + end
    ensures start + (input + added) == (output + removed) + end
  {
    assert start + (input + added) == (start + input) + added;
    assert (output + mid) + added == output + (mid + added);
    assert output + (removed + end) == (output + removed) + end;
  }

  /** First in, first out over every trace with harmless length errors only: what was there and what was committed
      or put comes out in order, the rest is the queue, and the bound is never passed. */
  lemma {:induction false} FirstInFirstOut(s: Stream, uses: seq<Use>, maxSize: nat)
    requires Bounded(s, maxSize) && Harmless(s, uses, maxSize)
    ensures !Trace(s, uses, maxSize).OutOfArea?
    ensures var end := Trace(s, uses, maxSize).s;
            s.queue + Input(s, uses, maxSize) == Output(s, uses, maxSize) + end.queue && Bounded(end, maxSize)
  {
    if uses == [] {
    } else {
      hide Next, Added, Removed;
      var front := uses[..|uses| - 1];
      var use := uses[|uses| - 1];
      FirstInFirstOut(s, front, maxSize);
      var mid := Trace(s, front, maxSize).s;
      NextBalance(mid, use, maxSize);
      Chained(s.queue, Input(s, front, maxSize), Output(s, front, maxSize), mid.queue,
              Added(mid, use, maxSize), Removed(mid, use), Next(mid, use, maxSize).s.queue);
    }
  }

  // ---------- how writes reach the queue ----------

  /** The documented use: prepare n, write at most n bytes, commit some of them. Exactly those arrive, and only the
      prepare can fail. */
  lemma WrittenBytesArrive(s: Stream, n: nat, bytes: seq<Byte>, k: nat, maxSize: nat)
    requires k <= |bytes| <= n
    ensures var prepared := Next(s, Prepare(n), maxSize);
            var written := Then(prepared, Write(0, bytes), maxSize);
            var committed := Then(written, Commit(k), maxSize);
            && (prepared.LengthError? <==> |s.queue| + n > maxSize)
            && (prepared.Running? ==>
                  committed.Running? && committed.s.queue == s.queue + Known(bytes[..k])
                  && Known(bytes[k..]) <= committed.s.area)
  {
    if |s.queue| + n <= maxSize {
      var r := Reserved(s, n);
      var area := Overwritten(r.area, 0, Known(bytes));
      assert area[..k] == Known(bytes[..k]);
      assert area[k..][..|bytes| - k] == Known(bytes[k..]);
    }
  }

  lemma Pieces(queue: seq<Cell>, area: seq<Cell>, k: nat, m: nat)
    requires k <= m <= |area|
    ensures queue + area[..k] + area[k..][..m - k] == queue + area[..m]
    ensures area[k..][m - k..] == area[m..]
  {
    assert area[..k] + area[k..][..m - k] == area[..m];
  }

  /** Committing in two pieces is committing once, also when the pieces ask for more than the area holds. */
  lemma CommitInPieces(s: Stream, a: nat, b: nat, maxSize: nat)
    ensures Then(Next(s, Commit(a), maxSize), Commit(b), maxSize) == Next(s, Commit(a + b), maxSize)
  {
    var k := Min(a, |s.area|);
    var m := Min(a + b, |s.area|);
    Pieces(s.queue, s.area, k, m);
    var first := Stream(s.gap, s.queue + s.area[..k], s.area[k..]);
    assert Next(s, Commit(a), maxSize) == Running(first);
    assert Min(b, |first.area|) == m - k;
    assert Next(first, Commit(b), maxSize) ==
           Running(Stream(s.gap, first.queue + first.area[..m - k], first.area[m - k..]));
  }

  /** Consuming what is already readable between a write and its commit does not touch what the commit delivers. */
  lemma ConsumeBeforeCommit(s: Stream, c: nat, n: nat, maxSize: nat)
    requires c <= |s.queue|
    ensures Then(Next(s, Consume(c), maxSize), Commit(n), maxSize) ==
            Then(Next(s, Commit(n), maxSize), Consume(c), maxSize)
  {
    var k := Min(n, |s.area|);
    assert (s.queue + s.area[..k])[c..] == s.queue[c..] + s.area[..k];
  }

  /** A put between a prepare and a commit uses up the first byte of the area: one staged byte is overtaken and lost. */
  lemma PutDropsStagedByte(s: Stream, b: Byte, n: nat, maxSize: nat)
    requires s.area != [] && |s.queue| < maxSize
    ensures var put := Next(s, Overflow(Some(b)), maxSize);
            var k := Min(n, |s.area| - 1);
            && put == Running(Stream(s.gap, s.queue + [Some(b)], s.area[1..]))
            && Then(put, Commit(n), maxSize) ==
               Running(Stream(s.gap, s.queue + [Some(b)] + s.area[1..k + 1], s.area[k + 1..]))
  {
    var k := Min(n, |s.area| - 1);
    assert s.area[1..][..k] == s.area[1..k + 1];
    assert s.area[1..][k..] == s.area[k + 1..];
  }
}
