/** The stream buffer: one growing array with a get area and a put area, used as a bounded byte queue. */
module StreamBuffers {
  import opened Options

  type Byte = bv8

  const BUFFER_DELTA := 128

  /** What reserve leaves readable when it throws after sliding the bytes down but before moving the offsets. */
  function AfterThrow<T>(queue: seq<T>, gnext: nat): (r: seq<T>)
    ensures |r| == |queue|
  {
    seq(|queue|, i requires 0 <= i < |queue| => if gnext + i < |queue| && gnext > 0 then queue[gnext + i] else queue[i])
  }

  /** Copying the part from g to p down to the start: what then lies at the old places. */
  lemma SlideEffect(whole: seq<Byte>, moved: seq<Byte>, g: nat, p: nat, e: nat)
    requires g <= p <= e <= |whole| && moved == whole[g..p] + whole[p - g..]
    ensures |moved| == |whole|
    ensures moved[g..p] == AfterThrow(whole[g..p], g) && moved[p..e] == whole[p..e]
  {
    var queue := whole[g..p];
    forall i | 0 <= i < p - g ensures moved[g..p][i] == AfterThrow(queue, g)[i] {
      if g + i < p - g {
        assert moved[g + i] == queue[g + i];
      } else {
        assert moved[g + i] == whole[g + i] == queue[i];
      }
    }
    assert moved[g..p] == AfterThrow(queue, g);
  }

  function Max(a: nat, b: nat): nat {
    if a > b then a else b
  }

  function Min(a: nat, b: nat): nat {
    if a < b then a else b
  }

  /** A sequence with another one stored over it from an offset on. */
  function Overwritten<T>(area: seq<T>, at: nat, items: seq<T>): (r: seq<T>)
    requires at + |items| <= |area|
    ensures |r| == |area|
  {
    area[..at] + items + area[at + |items|..]
  }

  lemma OverwrittenEnds(area: seq<Byte>, at: nat, bytes: seq<Byte>)
    requires at + |bytes| <= |area|
    ensures Overwritten(area, at, bytes[..0]) == area && bytes[..|bytes|] == bytes
  {
  }

  lemma OverwrittenNext(area: seq<Byte>, at: nat, bytes: seq<Byte>, n: nat)
    requires at + |bytes| <= |area| && n < |bytes|
    ensures Overwritten(area, at, bytes[..n + 1]) == Overwritten(area, at, bytes[..n])[at + n := bytes[n]]
  {
  }

  class StreamBuf {
    const maxSize: nat
    var buffer: array<Byte>
    var gptr: nat
    var egptr: nat
    var pptr: nat
    var epptr: nat

    ghost predicate Valid()
      reads this
    {
      && gptr <= egptr <= pptr <= epptr <= maxSize
      && buffer.Length == (if epptr == 0 then 1 else epptr)
    }

    /** The readable bytes, from the get offset to the put offset. */
    function Queue(): (q: seq<Byte>)
      requires Valid()
      reads this, buffer
      ensures |q| == pptr - gptr
    {
      buffer[gptr..pptr]
    }

    /** The writable bytes already allocated behind the queue. */
    function Area(): (a: seq<Byte>)
      requires Valid()
      reads this, buffer
      ensures |a| == epptr - pptr
    {
      buffer[pptr..epptr]
    }

    constructor (maximumSize: nat)
      ensures Valid() && fresh(buffer) && maxSize == maximumSize
      ensures gptr == 0 && Queue() == [] && |Area()| == if maximumSize < 128 then maximumSize else 128
    {
      maxSize := maximumSize;
      var pend := if maximumSize < BUFFER_DELTA then maximumSize else BUFFER_DELTA;
      buffer := new Byte[if pend > 1 then pend else 1];
      gptr, egptr := 0, 0;
      pptr, epptr := 0, pend;
    }

    /** Copies n bytes down to the start of the buffer; source and target may overlap. */
    method MoveDown(from: nat, n: nat)
      requires from + n <= buffer.Length
      modifies buffer
      ensures buffer[..] == old(buffer[from..from + n] + buffer[n..])
    {
      for i := 0 to n
        invariant buffer[..i] == old(buffer[from..from + i])
        invariant buffer[i..] == old(buffer[i..])
      {
        buffer[i] := buffer[from + i];
      }
    }

    /** Grows the buffer in place; the old bytes stay where they are. */
    method Resize(size: nat)
      requires buffer.Length <= size
      modifies this`buffer
      ensures fresh(buffer) && buffer.Length == size
      ensures buffer[..old(buffer.Length)] == old(buffer[..])
    {
      var grown := new Byte[size];
      for i := 0 to buffer.Length
        invariant buffer == old(buffer) && buffer[..] == old(buffer[..])
        invariant grown[..i] == buffer[..i]
      {
        grown[i] := buffer[i];
      }
      buffer := grown;
    }

    /** Makes room for n more bytes, or reports the length error. The error is raised after the bytes moved and
        before the offsets do. */
    method Reserve(n: nat) returns (ok: bool)
      requires Valid()
      modifies this`buffer, this`gptr, this`egptr, this`pptr, this`epptr, buffer
      ensures Valid() && (buffer == old(buffer) || fresh(buffer))
      ensures ok <==> old(|Queue()|) + n <= maxSize
      ensures ok ==> Queue() == old(Queue()) && |Area()| >= n
      ensures !ok ==> Queue() == AfterThrow(old(Queue()), old(gptr))
      ensures !ok ==> gptr == old(gptr) && egptr == old(egptr) && pptr == old(pptr) && epptr == old(epptr)
      ensures !ok ==> Area() == old(Area())
      ensures ok && n <= old(|Area()|) ==> gptr == old(gptr) && egptr == old(egptr) && Area() == old(Area())
      ensures ok && n > old(|Area()|) ==> gptr == 0 && |Area()| == Max(n, old(gptr + |Area()|))
    {
      if n <= epptr - pptr {
        return true;
      }
      var pnext := Slide();
      var pend := epptr;
      if n > pend - pnext {
        if n <= maxSize && pnext <= maxSize - n {
          pend := pnext + n;
          Grow(pend, pnext);
        } else {
          return false;
        }
      }
      Reposition(pnext, pend);
      return true;
    }

    /** Sets the stream positions: the readable bytes now start the buffer. */
    method Reposition(pnext: nat, pend: nat)
      requires pnext <= pend <= maxSize && buffer.Length == if pend == 0 then 1 else pend
      modifies this`gptr, this`egptr, this`pptr, this`epptr
      ensures Valid() && gptr == 0 && pptr == pnext && epptr == pend
      ensures Queue() == buffer[..pnext]
    {
      gptr, egptr := 0, pnext;
      pptr, epptr := pnext, pend;
    }

    /** Moves the readable bytes to the start of the buffer and says where they end; the offsets stay behind. */
    method Slide() returns (pnext: nat)
      requires Valid()
      modifies buffer
      ensures Valid() && pnext == pptr - gptr
      ensures buffer[..pnext] == old(Queue()) && Area() == old(Area())
      ensures Queue() == AfterThrow(old(Queue()), gptr)
    {
      hide AfterThrow;
      pnext := pptr;
      var gnext := gptr;
      ghost var whole := buffer[..];
      ghost var queue, area := Queue(), Area();
      assert whole[gnext..pptr] == queue && whole[pptr..epptr] == area;
      if gnext > 0 {
        pnext := pnext - gnext;
        MoveDown(gnext, pnext);
      }
      ghost var moved := buffer[..];
      assert moved == whole[gnext..pptr] + whole[pptr - gnext..];
      SlideEffect(whole, moved, gnext, pptr, epptr);
      assert Queue() == moved[gnext..pptr] && Area() == moved[pptr..epptr];
      assert buffer[..pnext] == moved[..pnext] == queue;
    }

    /** Resizes the buffer to hold a put area that ends at pend; the bytes before pnext stay. */
    method Grow(pend: nat, pnext: nat)
      requires 1 <= pend && buffer.Length <= pend && pnext <= buffer.Length
      modifies this`buffer
      ensures fresh(buffer) && buffer.Length == pend
      ensures buffer[..pnext] == old(buffer[..pnext])
    {
      ghost var whole := buffer[..];
      Resize(if pend > 1 then pend else 1);
      assert buffer[..pnext] == buffer[..|whole|][..pnext];
    }

    method Prepare(n: nat) returns (ok: bool)
      requires Valid()
      modifies this`buffer, this`gptr, this`egptr, this`pptr, this`epptr, buffer
      ensures Valid() && (buffer == old(buffer) || fresh(buffer))
      ensures ok <==> old(|Queue()|) + n <= maxSize
      ensures ok ==> Queue() == old(Queue()) && |Area()| >= n
      ensures ok && n <= old(|Area()|) ==> gptr == old(gptr) && egptr == old(egptr) && Area() == old(Area())
      ensures ok && n > old(|Area()|) ==> gptr == 0 && |Area()| == Max(n, old(gptr + |Area()|))
      ensures !ok ==> Queue() == AfterThrow(old(Queue()), old(gptr)) && Area() == old(Area())
      ensures !ok ==> gptr == old(gptr) && egptr == old(egptr) && pptr == old(pptr) && epptr == old(epptr)
    {
      ok := Reserve(n);
    }

    /** One store into the writable area. */
    method Poke(i: nat, b: Byte)
      requires Valid() && i < |Area()|
      modifies buffer
      ensures Valid() && Queue() == old(Queue())
      ensures Area() == old(Area())[i := b]
    {
      buffer[pptr + i] := b;
    }

    /** What a caller does with the memory that prepare handed out: bytes stored from an offset on. */
    method Write(at: nat, bytes: seq<Byte>)
      requires Valid() && at + |bytes| <= |Area()|
      modifies buffer
      ensures Valid() && Queue() == old(Queue())
      ensures Area() == Overwritten(old(Area()), at, bytes)
    {
      hide Overwritten;
      ghost var area, queue := Area(), Queue();
      OverwrittenEnds(area, at, bytes);
      for i := 0 to |bytes|
        invariant Valid() && Queue() == queue
        invariant Area() == Overwritten(area, at, bytes[..i])
      {
        Poke(at + i, bytes[i]);
        OverwrittenNext(area, at, bytes, i);
      }
    }

    /** Appends the first n writable bytes, or all of them if there are fewer. */
    method Commit(n: nat)
      requires Valid()
      modifies this`egptr, this`pptr
      ensures Valid()
      ensures var k := if n < old(|Area()|) then n else old(|Area()|);
              Queue() == old(Queue() + Area()[..k]) && Area() == old(Area()[k..])
    {
      var k := if n < epptr - pptr then n else epptr - pptr;
      pptr := pptr + k;
      egptr := pptr;
    }

    /** Drops the first n readable bytes, or all of them if there are fewer. */
    method Consume(n: nat)
      requires Valid()
      modifies this`gptr, this`egptr
      ensures Valid() && Area() == old(Area())
      ensures var k := if n < old(|Queue()|) then n else old(|Queue()|);
              Queue() == old(Queue()[k..]) && gptr == old(gptr) + k
    {
      if egptr < pptr {
        egptr := pptr;
      }
      var k := n;
      if gptr + k > pptr {
        k := pptr - gptr;
      }
      gptr := gptr + k;
    }

    /** The next readable byte without taking it, or None at the end. */
    method Underflow() returns (next: Option<Byte>)
      requires Valid()
      modifies this`egptr
      ensures Valid() && Queue() == old(Queue()) && Area() == old(Area())
      ensures next == if Queue() == [] then None else Some(Queue()[0])
    {
      if gptr < pptr {
        egptr := pptr;
        return Some(buffer[gptr]);
      }
      return None;
    }

    /** Writes one byte at the put offset. */
    method PutByte(b: Byte)
      requires Valid() && pptr < epptr
      modifies this`pptr, buffer
      ensures Valid() && Queue() == old(Queue()) + [b] && Area() == old(Area())[1..]
    {
      buffer[pptr] := b;
      pptr := pptr + 1;
    }

    /** Appends one byte, growing the buffer when the put area is full; None stands for end of file. */
    method Overflow(c: Option<Byte>) returns (ok: bool)
      requires Valid()
      modifies this`buffer, this`gptr, this`egptr, this`pptr, this`epptr, buffer
      ensures Valid() && (buffer == old(buffer) || fresh(buffer))
      ensures ok <==> (c.None? || old(|Queue()|) < maxSize)
      ensures ok ==> Queue() == old(Queue()) + (if c.Some? then [c.value] else [])
      ensures c.None? ==> gptr == old(gptr) && Area() == old(Area())
      ensures ok && c.Some? && old(Area()) != [] ==> gptr == old(gptr) && Area() == old(Area())[1..]
      ensures ok && c.Some? && old(Area()) == [] ==>
                gptr == 0 && |Area()| == Max(Min(maxSize - old(|Queue()|), 128), old(gptr)) - 1
      ensures !ok ==> gptr == old(gptr) && Queue() == AfterThrow(old(Queue()), old(gptr)) && Area() == old(Area())
    {
      if c.None? {
        return true;
      }
      if pptr == epptr {
        var bufferSize := pptr - gptr;
        var reserved;
        if bufferSize < maxSize && maxSize - bufferSize < BUFFER_DELTA {
          reserved := Reserve(maxSize - bufferSize);
        } else {
          reserved := Reserve(BUFFER_DELTA);
        }
        if !reserved {
          return false;
        }
      }
      PutByte(c.value);
      return true;
    }
  }

  // ---------- the throwing path ----------

  /** After a length error the queue is intact exactly when nothing was moved or it repeats with the moved distance. */
  lemma AfterThrowKeeps<T>(queue: seq<T>, gnext: nat)
    ensures AfterThrow(queue, gnext) == queue <==>
            gnext == 0 || forall i :: 0 <= i && gnext + i < |queue| ==> queue[gnext + i] == queue[i]
  {
    var r := AfterThrow(queue, gnext);
    if r == queue && gnext > 0 {
      forall i | 0 <= i && gnext + i < |queue| ensures queue[gnext + i] == queue[i] {
        assert r[i] == queue[gnext + i];
      }
    }
  }

  /** A length error is harmless for every content exactly when the get offset is zero or past the queue's size. */
  lemma ThrowIsSafeIff(size: nat, gnext: nat)
    ensures (forall queue: seq<Byte> | |queue| == size :: AfterThrow(queue, gnext) == queue) <==>
            gnext == 0 || gnext >= size
  {
    forall queue: seq<Byte> | |queue| == size && (gnext == 0 || gnext >= size)
      ensures AfterThrow(queue, gnext) == queue
    {
      AfterThrowKeeps(queue, gnext);
    }
    if 0 < gnext < size {
      var queue: seq<Byte> := seq(size, i => if i == 0 then 1 else 0);
      assert AfterThrow(queue, gnext)[0] == queue[gnext] != queue[0];
    }
  }

  /** The documented length error can cost data: a buffer whose failing prepare changes the readable bytes. */
  method FailedPrepareDamages() returns (before: seq<Byte>, after: seq<Byte>)
    ensures before == [2, 3] && after == [3, 3]
  {
    var sb := new StreamBuf(3);
    var ok := sb.Prepare(3);
    sb.Write(0, [1, 2, 3]);
    assert sb.Area()[..3] == [1, 2, 3];
    sb.Commit(3);
    assert sb.Queue() == [1, 2, 3];
    sb.Consume(1);
    before := sb.Queue();
    assert before == [2, 3];
    ok := sb.Prepare(2);
    assert !ok && sb.gptr == 1;
    after := sb.Queue();
  }
}
