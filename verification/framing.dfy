/**
 * The connection reader and writer of the monitor server
 * (monitor/src/server.rs, `FrameLen`, `FrameData`, `Frame`).
 *
 * The socket is a `Stream` whose reads are scripted by a list of events: a
 * chunk of bytes (an empty chunk is end of file), an I/O error, or `Blocked`,
 * which stands for the read being cancelled by the enclosing `select!`
 * before any bytes arrived. `taken` records every byte read so far, so that
 * the readers' contracts can say which bytes of the connection they consumed.
 */
module Framing {
  import opened Wrappers
  import opened Types
  import opened Messages
  import opened Codec

  datatype Event = Chunk(bytes: Bytes) | IoErr | Blocked

  datatype ReadResult = Got(bytes: Bytes) | ReadErr | WouldBlock

  /** The outcome of a cancellable read: a value, an error, or cancelled with progress kept. */
  datatype Poll<T> = Ready(value: T) | Failed(error: Error) | Cancelled

  function Min(a: nat, b: nat): nat { if a < b then a else b }

  /**
   * One read with `room` free bytes: end of input reads nothing, a chunk
   * gives as much of itself as fits and keeps the remainder for the next
   * read, and an error or a cancellation is used up.
   */
  predicate ReadsAs(input: seq<Event>, room: nat, r: ReadResult, after: seq<Event>) {
    && (input == [] ==> r == Got([]) && after == [])
    && (input != [] && input[0].Chunk? ==>
        var b := input[0].bytes;
        r == Got(b[..Min(room, |b|)]) &&
        after == if room < |b| then [Chunk(b[room..])] + input[1..] else input[1..])
    && (input != [] && input[0].IoErr? ==> r == ReadErr && after == input[1..])
    && (input != [] && input[0].Blocked? ==> r == WouldBlock && after == input[1..])
  }

  class Stream {
    var input: seq<Event>
    var output: Bytes
    ghost var taken: Bytes

    constructor (input: seq<Event>)
      ensures this.input == input && output == [] && taken == []
    {
      this.input := input;
      output := [];
      taken := [];
    }

    /** `AsyncRead::read` into a buffer with `room` free bytes. */
    method Read(room: nat) returns (r: ReadResult)
      requires room > 0
      modifies this`input, this`taken
      ensures r.Got? ==> |r.bytes| <= room && taken == old(taken) + r.bytes
      ensures !r.Got? ==> taken == old(taken)
      ensures ReadsAs(old(input), room, r, input)
    {
      if input == [] {
        r := Got([]);
        return;
      }
      match input[0]
      case Chunk(b) =>
        var n := Min(room, |b|);
        r := Got(b[..n]);
        taken := taken + b[..n];
        input := if room < |b| then [Chunk(b[room..])] + input[1..] else input[1..];
      case IoErr =>
        r := ReadErr;
        input := input[1..];
      case Blocked =>
        r := WouldBlock;
        input := input[1..];
    }

    /** `write_all`. */
    method Write(bytes: Bytes)
      modifies this`output
      ensures output == old(output) + bytes
    {
      output := output + bytes;
    }
  }

  // ---------------------------------------------------------------------
  // The reads a reader makes, as a function of the events still to come
  // ---------------------------------------------------------------------

  /**
   * Where a run of reads that wants `need` more bytes stops: with those
   * bytes and the events left, at end of file, at an I/O error, or
   * cancelled with the bytes taken before the cancellation.
   */
  datatype Fill = Filled(bytes: Bytes, rest: seq<Event>) | AtEof | AtIoErr | Interrupted(bytes: Bytes, rest: seq<Event>)

  function Prepend(b: Bytes, f: Fill): Fill {
    match f
    case Filled(x, rest) => Filled(b + x, rest)
    case Interrupted(x, rest) => Interrupted(b + x, rest)
    case _ => f
  }

  /**
   * The loop shared by `FrameLen::read` and `FrameData::read`: each read asks
   * for what is still missing; an empty read is end of file, an error ends
   * the loop, and a cancelled read leaves what was gathered.
   */
  function FillFrom(input: seq<Event>, need: nat): (f: Fill)
    ensures f.Filled? ==> |f.bytes| == need
    ensures f.Interrupted? ==> |f.bytes| < need && |f.rest| < |input|
    decreases |input|
  {
    if need == 0 then Filled([], input)
    else if input == [] then AtEof
    else match input[0]
      case IoErr => AtIoErr
      case Blocked => Interrupted([], input[1..])
      case Chunk(b) =>
        if |b| == 0 then AtEof
        else if need <= |b| then Filled(b[..need], if need < |b| then [Chunk(b[need..])] + input[1..] else input[1..])
        else Prepend(b, FillFrom(input[1..], need - |b|))
  }

  lemma PrependPrepend(x: Bytes, y: Bytes, f: Fill)
    ensures Prepend(x, Prepend(y, f)) == Prepend(x + y, f)
  {
    match f
    case Filled(z, _) => assert x + (y + z) == (x + y) + z;
    case Interrupted(z, _) => assert x + (y + z) == (x + y) + z;
    case _ =>
  }

  /** One read of a non-empty chunk: the bytes it returns, then the fill of what is left. */
  lemma FillStep(input: seq<Event>, need: nat)
    requires need > 0 && input != [] && input[0].Chunk? && |input[0].bytes| > 0
    ensures var b := input[0].bytes;
      var k := Min(need, |b|);
      FillFrom(input, need) ==
        Prepend(b[..k], FillFrom(if need < |b| then [Chunk(b[need..])] + input[1..] else input[1..], need - k))
  {
    var b := input[0].bytes;
    if need > |b| {
      assert b[..|b|] == b;
    } else {
      assert b[..need] + [] == b[..need];
    }
  }

  /** How one read moves the fill still to come. */
  lemma ReadStep(input: seq<Event>, need: nat, r: ReadResult, after: seq<Event>)
    requires need > 0 && ReadsAs(input, need, r, after)
    ensures r == ReadErr ==> FillFrom(input, need) == AtIoErr
    ensures r == WouldBlock ==> FillFrom(input, need) == Interrupted([], after)
    ensures r.Got? && r.bytes == [] ==> FillFrom(input, need) == AtEof
    ensures r.Got? && r.bytes != [] ==>
      |r.bytes| <= need && FillFrom(input, need) == Prepend(r.bytes, FillFrom(after, need - |r.bytes|))
  {
    if input != [] && input[0].Chunk? && |input[0].bytes| > 0 {
      FillStep(input, need);
    }
  }

  /** The fill a reader's outcome reports, given the bytes it took and the events it left. */
  function Reported<T>(r: Poll<T>, got: Bytes, rest: seq<Event>): Fill {
    match r
    case Ready(_) => Filled(got, rest)
    case Cancelled => Interrupted(got, rest)
    case Failed(e) => if e == UnexpectedEof then AtEof else AtIoErr
  }

  /** `ReadStep` inside a loop that has already gathered `acc`. */
  lemma FillAdvance(total: Fill, acc: Bytes, input: seq<Event>, need: nat, r: ReadResult, after: seq<Event>)
    requires need > 0 && ReadsAs(input, need, r, after)
    requires total == Prepend(acc, FillFrom(input, need))
    ensures r == ReadErr ==> total == AtIoErr
    ensures r == WouldBlock ==> total == Interrupted(acc, after)
    ensures r.Got? && r.bytes == [] ==> total == AtEof
    ensures r.Got? && r.bytes != [] ==>
      |r.bytes| <= need && total == Prepend(acc + r.bytes, FillFrom(after, need - |r.bytes|))
  {
    ReadStep(input, need, r, after);
    if r == WouldBlock {
      assert acc + [] == acc;
    }
    if r.Got? && r.bytes != [] {
      PrependPrepend(acc, r.bytes, FillFrom(after, need - |r.bytes|));
    }
  }

  /** Every event is a chunk of at least one byte: the peer only sends, nothing fails or is cancelled. */
  predicate Clean(input: seq<Event>) {
    forall i | 0 <= i < |input| :: input[i].Chunk? && |input[i].bytes| > 0
  }

  /** The bytes of the chunks, in order. */
  function Flatten(input: seq<Event>): Bytes {
    if input == [] then []
    else (if input[0].Chunk? then input[0].bytes else []) + Flatten(input[1..])
  }

  /** The chunks left once `need` bytes of a clean input are taken. */
  function Left(input: seq<Event>, need: nat): seq<Event>
    decreases |input|
  {
    if need == 0 || input == [] || !input[0].Chunk? then input
    else
      var b := input[0].bytes;
      if need < |b| then [Chunk(b[need..])] + input[1..] else Left(input[1..], need - |b|)
  }

  /** A clean input starts with a non-empty chunk, and what follows it is clean. */
  lemma CleanUncons(pre: seq<Event>)
    requires Clean(pre) && pre != []
    ensures pre[0].Chunk? && |pre[0].bytes| > 0
    ensures Flatten(pre) == pre[0].bytes + Flatten(pre[1..]) && Clean(pre[1..])
  {
    assert pre[0] == pre[0];
    forall i | 0 <= i < |pre[1..]| ensures pre[1..][i].Chunk? && |pre[1..][i].bytes| > 0 {
      assert pre[1..][i] == pre[i + 1];
    }
  }

  /** What a read of part of the first chunk of a clean input leaves: the rest of that chunk, then the others. */
  lemma LeftSplit(pre: seq<Event>, need: nat)
    requires Clean(pre) && pre != [] && 0 < need < |pre[0].bytes|
    ensures Left(pre, need) == [Chunk(pre[0].bytes[need..])] + pre[1..]
    ensures Clean(Left(pre, need)) && Flatten(Left(pre, need)) == Flatten(pre)[need..]
  {
    CleanUncons(pre);
    var b := pre[0].bytes;
    var l := [Chunk(b[need..])] + pre[1..];
    assert l[1..] == pre[1..];
    assert Flatten(l) == b[need..] + Flatten(pre[1..]);
    forall i | 0 <= i < |l| ensures l[i].Chunk? && |l[i].bytes| > 0 {
      if i > 0 { assert l[i] == pre[1..][i - 1]; }
    }
    assert Flatten(pre)[need..] == b[need..] + Flatten(pre[1..]);
  }

  /** The case of `FillClean` where the first chunk holds more than is wanted. */
  lemma FillCleanSplit(pre: seq<Event>, tail: seq<Event>, need: nat)
    requires Clean(pre) && pre != [] && 0 < need < |pre[0].bytes|
    ensures FillFrom(pre + tail, need) == Filled(Flatten(pre)[..need], Left(pre, need) + tail)
    ensures Clean(Left(pre, need)) && Flatten(Left(pre, need)) == Flatten(pre)[need..]
  {
    CleanUncons(pre);
    LeftSplit(pre, need);
    var b := pre[0].bytes;
    assert (pre + tail)[0] == pre[0] && (pre + tail)[1..] == pre[1..] + tail;
    assert [Chunk(b[need..])] + (pre[1..] + tail) == Left(pre, need) + tail;
  }

  /** The case of `FillClean` where the first chunk is taken whole. */
  lemma FillCleanWhole(pre: seq<Event>, tail: seq<Event>, need: nat)
    requires Clean(pre) && pre != [] && 0 < |pre[0].bytes| <= need <= |Flatten(pre)|
    requires var k := |pre[0].bytes|;
      FillFrom(pre[1..] + tail, need - k) == Filled(Flatten(pre[1..])[..need - k], Left(pre[1..], need - k) + tail)
    ensures FillFrom(pre + tail, need) == Filled(Flatten(pre)[..need], Left(pre, need) + tail)
  {
    CleanUncons(pre);
    var b := pre[0].bytes;
    var k := |b|;
    var input := pre + tail;
    assert input[0] == pre[0] && input[1..] == pre[1..] + tail;
    FillStep(input, need);
    assert b[..k] == b;
    var inner := FillFrom(pre[1..] + tail, need - k);
    assert FillFrom(input, need) == Prepend(b, inner);
    WholeChunkParts(pre, need);
  }

  /** Taking the first chunk of a clean input whole: the bytes and the chunks left, in terms of the other chunks. */
  lemma WholeChunkParts(pre: seq<Event>, need: nat)
    requires Clean(pre) && pre != [] && 0 < |pre[0].bytes| <= need <= |Flatten(pre)|
    ensures var k := |pre[0].bytes|;
      && Flatten(pre)[..need] == pre[0].bytes + Flatten(pre[1..])[..need - k]
      && Left(pre, need) == Left(pre[1..], need - k)
  {
    CleanUncons(pre);
  }

  /**
   * However a clean input is cut into chunks, and whatever follows it, the
   * reads take its first `need` bytes and leave the rest of it in front of
   * what follows.
   */
  lemma {:induction false} FillClean(pre: seq<Event>, tail: seq<Event>, need: nat)
    requires Clean(pre) && need <= |Flatten(pre)|
    ensures FillFrom(pre + tail, need) == Filled(Flatten(pre)[..need], Left(pre, need) + tail)
    ensures Clean(Left(pre, need)) && Flatten(Left(pre, need)) == Flatten(pre)[need..]
    decreases |pre|
  {
    if need == 0 {
      assert Flatten(pre)[..0] == [];
      return;
    }
    CleanUncons(pre);
    var b := pre[0].bytes;
    if need < |b| {
      FillCleanSplit(pre, tail, need);
    } else {
      FillClean(pre[1..], tail, need - |b|);
      FillCleanWhole(pre, tail, need);
      assert Left(pre, need) == Left(pre[1..], need - |b|);
      assert Flatten(pre)[need..] == Flatten(pre[1..])[need - |b|..];
    }
  }

  /** A clean input that holds fewer than `need` bytes and then ends runs into end of file. */
  lemma {:induction false} FillShort(pre: seq<Event>, need: nat)
    requires Clean(pre) && need > |Flatten(pre)|
    ensures FillFrom(pre, need) == AtEof
    decreases |pre|
  {
    if pre != [] {
      CleanUncons(pre);
      FillShort(pre[1..], need - |pre[0].bytes|);
    }
  }

  /** The outcome of reading a frame body of `n` bytes, `have` of which are already read. */
  function BodyFrom(have: Bytes, input: seq<Event>, n: nat): (r: Poll<Bytes>)
    requires |have| <= n
    ensures r.Ready? ==> |r.value| == n && r.value[..|have|] == have
  {
    match FillFrom(input, n - |have|)
    case Filled(b, _) => Ready(have + b)
    case AtEof => Failed(UnexpectedEof)
    case AtIoErr => Failed(IoFailure)
    case Interrupted(_, _) => Cancelled
  }

  /**
   * The outcome of `Frame::read(limit)` when `have` holds the header bytes
   * already read: the header is completed, checked against the limit, and
   * the body read.
   */
  function FrameFrom(have: Bytes, input: seq<Event>, limit: nat): (r: Poll<Bytes>)
    requires |have| < 4
    ensures r.Ready? ==> |r.value| <= limit
  {
    match FillFrom(input, 4 - |have|)
    case Filled(h, rest) =>
      var n := FromBe(have + h);
      if n > limit then Failed(InvalidData) else BodyFrom([], rest, n)
    case AtEof => Failed(UnexpectedEof)
    case AtIoErr => Failed(IoFailure)
    case Interrupted(_, _) => Cancelled
  }

  /** How `read` goes on once its header read ended with `l`, having taken `got` and left `rest`. */
  lemma HeaderOutcome(have: Bytes, input: seq<Event>, limit: nat, l: Poll<U32>, got: Bytes, rest: seq<Event>)
    requires |have| < 4 && FillFrom(input, 4 - |have|) == Reported(l, got, rest)
    requires l.Failed? ==> l.error == UnexpectedEof || l.error == IoFailure
    requires l.Ready? ==> |have + got| == 4 && l.value == FromBe(have + got)
    ensures l.Failed? ==> FrameFrom(have, input, limit) == Failed(l.error)
    ensures l.Cancelled? ==> FrameFrom(have, input, limit) == Cancelled
    ensures l.Ready? && l.value > limit ==> FrameFrom(have, input, limit) == Failed(InvalidData)
    ensures l.Ready? && l.value <= limit ==> FrameFrom(have, input, limit) == BodyFrom([], rest, l.value)
  {
  }

  /**
   * `Frame::read` from the start of a frame agrees with the reference reader
   * `DecodeFrame` on the bytes of a clean input: a complete frame is read
   * whatever follows it, a header over the limit is refused with InvalidData
   * whatever follows it, and a connection that ends mid-frame fails with
   * UnexpectedEof.
   */
  lemma ReadAgreesWithDecode(pre: seq<Event>, tail: seq<Event>, limit: nat)
    requires Clean(pre)
    ensures var d := DecodeFrame(Flatten(pre), limit);
      && (d.Complete? ==> FrameFrom([], pre + tail, limit) == Ready(d.payload))
      && (d.Rejected? ==> FrameFrom([], pre + tail, limit) == Failed(InvalidData))
      && (d.Incomplete? ==> FrameFrom([], pre, limit) == Failed(UnexpectedEof))
  {
    var bytes := Flatten(pre);
    if |bytes| < 4 {
      FillShort(pre, 4);
    } else {
      HeaderThenBody(pre, tail, limit);
      assert pre + [] == pre;
      HeaderThenBody(pre, [], limit);
    }
  }

  /** `ReadAgreesWithDecode` once the header has arrived. */
  lemma HeaderThenBody(pre: seq<Event>, tail: seq<Event>, limit: nat)
    requires Clean(pre) && |Flatten(pre)| >= 4
    ensures var bytes := Flatten(pre);
      var n := FromBe(bytes[..4]);
      && (n > limit ==> FrameFrom([], pre + tail, limit) == Failed(InvalidData))
      && (n <= limit && |bytes| >= 4 + n ==> FrameFrom([], pre + tail, limit) == Ready(bytes[4..4 + n]))
      && (n <= limit && |bytes| < 4 + n && tail == [] ==> FrameFrom([], pre + tail, limit) == Failed(UnexpectedEof))
  {
    var bytes := Flatten(pre);
    FillClean(pre, tail, 4);
    var l := Left(pre, 4);
    var n := FromBe(bytes[..4]);
    HeaderRead(pre + tail, bytes[..4], l + tail, limit);
    if n <= limit {
      BodyRead(l, tail, n);
      if |bytes| >= 4 + n {
        assert Flatten(l)[..n] == bytes[4..4 + n];
      }
    }
  }

  /** Once the header is filled, `read` checks it and reads the body from the events left. */
  lemma HeaderRead(input: seq<Event>, h: Bytes, rest: seq<Event>, limit: nat)
    requires |h| == 4 && FillFrom(input, 4) == Filled(h, rest)
    ensures FrameFrom([], input, limit) == if FromBe(h) > limit then Failed(InvalidData) else BodyFrom([], rest, FromBe(h))
  {
    assert [] + h == h;
  }

  /** A body read over a clean input: the first `n` bytes when they are there, otherwise end of file. */
  lemma BodyRead(l: seq<Event>, tail: seq<Event>, n: nat)
    requires Clean(l)
    ensures n <= |Flatten(l)| ==> BodyFrom([], l + tail, n) == Ready(Flatten(l)[..n])
    ensures n > |Flatten(l)| && tail == [] ==> BodyFrom([], l + tail, n) == Failed(UnexpectedEof)
  {
    if n <= |Flatten(l)| {
      FillClean(l, tail, n);
      assert [] + Flatten(l)[..n] == Flatten(l)[..n];
    } else if tail == [] {
      assert l + tail == l;
      FillShort(l, n);
    }
  }

  /** A frame written by `send`, however it is cut into chunks, is read back by `read` from a fresh start. */
  lemma SendThenRead(pre: seq<Event>, tail: seq<Event>, p: Bytes, more: Bytes, limit: nat)
    requires Clean(pre) && |p| <= limit && |p| < U32_LIMIT && Flatten(pre) == EncodeFrame(p) + more
    ensures FrameFrom([], pre + tail, limit) == Ready(p)
  {
    FrameRoundTrip(p, more, limit);
    ReadAgreesWithDecode(pre, tail, limit);
  }

  /**
   * The 4-byte length header, filled a chunk at a time. Its `[u8; 4]`
   * buffer is a sequence of four bytes that each read rewrites.
   */
  class FrameLen {
    var data: Bytes
    var consumed: nat

    ghost predicate Valid()
      reads this
    {
      |data| == 4 && consumed <= 4
    }

    /** The header bytes read so far. */
    ghost function Progress(): Bytes
      reads this
      requires Valid()
    {
      data[..consumed]
    }

    constructor ()
      ensures Valid() && consumed == 0
    {
      data := [0, 0, 0, 0];
      consumed := 0;
    }

    /**
     * Reads until four header bytes have accumulated and returns their
     * big-endian value. A failed read or a zero-byte read forgets the
     * progress; a cancelled read keeps it, so the next call resumes.
     */
    method Read(io: Stream) returns (r: Poll<U32>, ghost got: Bytes)
      requires Valid()
      modifies this`consumed, this`data, io
      ensures Valid() && io.output == old(io.output) && io.taken == old(io.taken) + got
      ensures FillFrom(old(io.input), 4 - old(consumed)) == Reported(r, got, io.input)
      ensures r.Ready? ==> consumed == 4 && r.value == FromBe(data)
      ensures r.Failed? ==> consumed == 0 && (r.error == UnexpectedEof || r.error == IoFailure)
      ensures !r.Failed? ==> Progress() == old(Progress()) + got
    {
      ghost var before := Progress();
      got := [];
      ghost var rest := io.input;
      ghost var need: nat := 4 - consumed;
      ghost var total := FillFrom(rest, need);
      assert total == Prepend([], total);
      while consumed < 4
        invariant Valid() && Progress() == before + got
        invariant io.taken == old(io.taken) + got && io.output == old(io.output)
        invariant io.input == rest && need == 4 - consumed
        invariant total == Prepend(got, FillFrom(rest, need))
        decreases 4 - consumed
      {
        var exit;
        exit, got, rest, need := Step(io, total, got, rest, need, before, old(io.taken));
        if exit.Some? {
          return exit.value, got;
        }
      }
      assert got + [] == got;
      assert data == Progress();
      r := Ready(FromBe(data));
    }

    /**
     * One pass of `read`'s loop: a read, then either the exit it causes (an
     * error or end of file forgets the progress, a cancellation keeps it) or
     * the bytes stored. `acc` is what the call gathered before this pass.
     */
    method Step(io: Stream, ghost total: Fill, ghost acc: Bytes, ghost rest: seq<Event>, ghost need: nat,
                ghost before: Bytes, ghost taken: Bytes)
      returns (exit: Option<Poll<U32>>, ghost got: Bytes, ghost after: seq<Event>, ghost need': nat)
      requires Valid() && consumed < 4 && Progress() == before + acc && io.taken == taken + acc
      requires io.input == rest && need == 4 - consumed && total == Prepend(acc, FillFrom(rest, need))
      modifies this`consumed, this`data, io`input, io`taken
      ensures Valid() && io.input == after && io.taken == taken + got
      ensures exit.None? ==> (consumed > old(consumed) && need' == 4 - consumed &&
        total == Prepend(got, FillFrom(after, need')) && Progress() == before + got)
      ensures exit.Some? ==> (total == Reported(exit.value, got, after) && !exit.value.Ready? &&
        (exit.value.Failed? ==> consumed == 0 && (exit.value.error == UnexpectedEof || exit.value.error == IoFailure)) &&
        (exit.value.Cancelled? ==> Progress() == before + got))
    {
      var res;
      res, after := ReadOnce(io, total, acc, rest, need);
      got := acc;
      need' := need;
      match res
      case ReadErr =>
        consumed := 0;
        exit := Some(Failed(IoFailure));
      case WouldBlock =>
        exit := Some(Cancelled);
      case Got(b) =>
        if |b| == 0 {
          consumed := 0;
          exit := Some(Failed(UnexpectedEof));
        } else {
          got := acc + b;
          assert before + got == (before + acc) + b;
          assert taken + got == (taken + acc) + b;
          need' := need - |b|;
          exit := None;
        }
    }

    /**
     * One pass of `read`'s loop up to the progress update: a read into the
     * free part of the header, whose bytes are stored after those already
     * there. `total` is the fill the whole call makes, `acc` what it gathered.
     */
    method ReadOnce(io: Stream, ghost total: Fill, ghost acc: Bytes, ghost rest: seq<Event>, ghost need: nat)
      returns (got: ReadResult, ghost after: seq<Event>)
      requires Valid() && consumed < 4
      requires io.input == rest && need == 4 - consumed && total == Prepend(acc, FillFrom(rest, need))
      modifies this`consumed, this`data, io`input, io`taken
      ensures Valid() && io.input == after
      ensures got == ReadErr ==> total == AtIoErr
      ensures got == WouldBlock ==> total == Interrupted(acc, after) && Progress() == old(Progress())
      ensures got.Got? && got.bytes == [] ==> total == AtEof
      ensures got.Got? && got.bytes != [] ==>
        |got.bytes| <= need && total == Prepend(acc + got.bytes, FillFrom(after, need - |got.bytes|)) &&
        consumed == old(consumed) + |got.bytes| && Progress() == old(Progress()) + got.bytes
      ensures io.taken == old(io.taken) + (if got.Got? then got.bytes else [])
    {
      got := io.Read(4 - consumed);
      after := io.input;
      FillAdvance(total, acc, rest, need, got, after);
      if got.Got? && got.bytes != [] {
        Append(got.bytes);
      }
    }

    /** Stores the bytes of one read after those already there. */
    method Append(b: Bytes)
      requires Valid() && consumed + |b| <= 4
      modifies this`consumed, this`data
      ensures Valid() && Progress() == old(Progress()) + b
    {
      data := data[..consumed] + b + data[consumed + |b|..];
      consumed := consumed + |b|;
      assert data[..consumed] == old(data[..consumed]) + b;
    }

    method Reset()
      modifies this`consumed
      ensures consumed == 0
    {
      consumed := 0;
    }
  }

  /** The frame body buffer, filled a chunk at a time. */
  class FrameData {
    var data: Bytes
    var len: nat
    var consumed: nat

    ghost predicate Valid()
      reads this
    {
      consumed <= len && (consumed > 0 ==> |data| == len)
    }

    constructor ()
      ensures Valid() && data == [] && len == 0 && consumed == 0
    {
      data, len, consumed := [], 0, 0;
    }

    /** `Vec::resize`: truncates or pads with zeros, keeping the bytes already there. */
    method Resize(n: U32)
      requires Valid() && (consumed > 0 ==> n == len)
      modifies this`data, this`len
      ensures Valid() && len == n && |data| == n
      ensures data == if n <= |old(data)| then old(data)[..n] else old(data) + seq(n - |old(data)|, _ => 0)
    {
      if n <= |data| {
        data := data[..n];
      } else {
        data := data + seq(n - |data|, _ => 0);
      }
      len := n;
    }

    /** Reads until `len` body bytes have accumulated, with the same error and cancellation rules as the header. */
    method Read(io: Stream) returns (r: Poll<()>, ghost got: Bytes)
      requires Valid() && |data| == len
      modifies this`data, this`consumed, io`input, io`taken
      ensures Valid() && |data| == len && len == old(len)
      ensures io.output == old(io.output) && io.taken == old(io.taken) + got
      ensures FillFrom(old(io.input), len - old(consumed)) == Reported(r, got, io.input)
      ensures r.Ready? ==> consumed == len
      ensures r.Failed? ==> consumed == 0 && (r.error == UnexpectedEof || r.error == IoFailure)
      ensures !r.Failed? ==> data[..consumed] == old(data[..consumed]) + got
    {
      ghost var before := data[..consumed];
      got := [];
      ghost var rest := io.input;
      ghost var need: nat := len - consumed;
      ghost var total := FillFrom(rest, need);
      assert total == Prepend([], total);
      while consumed < len
        invariant Valid() && |data| == len && data[..consumed] == before + got
        invariant io.taken == old(io.taken) + got
        invariant io.input == rest && need == len - consumed
        invariant total == Prepend(got, FillFrom(rest, need))
        decreases len - consumed
      {
        var exit;
        exit, got, rest, need := Step(io, total, got, rest, need, before, old(io.taken));
        if exit.Some? {
          return exit.value, got;
        }
      }
      assert got + [] == got;
      r := Ready(());
    }

    /** One pass of `read`'s loop, as for the header. */
    method Step(io: Stream, ghost total: Fill, ghost acc: Bytes, ghost rest: seq<Event>, ghost need: nat,
                ghost before: Bytes, ghost taken: Bytes)
      returns (exit: Option<Poll<()>>, ghost got: Bytes, ghost after: seq<Event>, ghost need': nat)
      requires Valid() && |data| == len && consumed < len && data[..consumed] == before + acc && io.taken == taken + acc
      requires io.input == rest && need == len - consumed && total == Prepend(acc, FillFrom(rest, need))
      modifies this`data, this`consumed, io`input, io`taken
      ensures Valid() && |data| == len && io.input == after && io.taken == taken + got
      ensures exit.None? ==> (consumed > old(consumed) && need' == len - consumed &&
        total == Prepend(got, FillFrom(after, need')) && data[..consumed] == before + got)
      ensures exit.Some? ==> (total == Reported(exit.value, got, after) && !exit.value.Ready? &&
        (exit.value.Failed? ==> consumed == 0 && (exit.value.error == UnexpectedEof || exit.value.error == IoFailure)) &&
        (exit.value.Cancelled? ==> data[..consumed] == before + got))
    {
      var res;
      res, after := ReadOnce(io, total, acc, rest, need);
      got := acc;
      need' := need;
      match res
      case ReadErr =>
        consumed := 0;
        exit := Some(Failed(IoFailure));
      case WouldBlock =>
        exit := Some(Cancelled);
      case Got(b) =>
        if |b| == 0 {
          consumed := 0;
          exit := Some(Failed(UnexpectedEof));
        } else {
          got := acc + b;
          assert before + got == (before + acc) + b;
          assert taken + got == (taken + acc) + b;
          need' := need - |b|;
          exit := None;
        }
    }

    /**
     * One pass of `read`'s loop up to the progress update, as for the header.
     * `total` is the fill the whole call makes, `acc` what it gathered so far.
     */
    method ReadOnce(io: Stream, ghost total: Fill, ghost acc: Bytes, ghost rest: seq<Event>, ghost need: nat)
      returns (got: ReadResult, ghost after: seq<Event>)
      requires Valid() && |data| == len && consumed < len
      requires io.input == rest && need == len - consumed && total == Prepend(acc, FillFrom(rest, need))
      modifies this`data, this`consumed, io`input, io`taken
      ensures Valid() && |data| == len && io.input == after
      ensures got == ReadErr ==> total == AtIoErr
      ensures got == WouldBlock ==> total == Interrupted(acc, after) && data[..consumed] == old(data[..consumed])
      ensures got.Got? && got.bytes == [] ==> total == AtEof
      ensures got.Got? && got.bytes != [] ==>
        |got.bytes| <= need && total == Prepend(acc + got.bytes, FillFrom(after, need - |got.bytes|)) &&
        consumed == old(consumed) + |got.bytes| && data[..consumed] == old(data[..consumed]) + got.bytes
      ensures io.taken == old(io.taken) + (if got.Got? then got.bytes else [])
    {
      got := io.Read(len - consumed);
      after := io.input;
      FillAdvance(total, acc, rest, need, got, after);
      if got.Got? && got.bytes != [] {
        var b := got.bytes;
        data := data[..consumed] + b + data[consumed + |b|..];
        consumed := consumed + |b|;
        assert data[..consumed] == old(data[..consumed]) + b;
      }
    }

    /** Hands the buffer out and forgets the progress; `len` is kept. */
    method Reset() returns (buf: Bytes)
      modifies this`data, this`consumed
      ensures buf == old(data) && data == [] && consumed == 0
    {
      consumed := 0;
      buf := data;
      data := [];
    }
  }

  /** One agent connection: the socket, the session key once the handshake is done, and the two read buffers. */
  class Frame {
    const io: Stream
    const suite: Suite
    const sk: Bytes
    const len: FrameLen
    const data: FrameData
    var cipher: Option<Bytes>

    /** The frame size limit in force: 256 bytes before the handshake, MAX_MESSAGE_SIZE after. */
    function Limit(): nat
      reads this
    {
      if cipher.Some? then MAX_MESSAGE_SIZE else HANDSHAKE_LIMIT
    }

    ghost predicate Valid()
      reads this, len, data
    {
      len.Valid() && data.Valid() &&
      (len.consumed < 4 ==> data.consumed == 0) &&
      (len.consumed == 4 ==> data.len == FromBe(len.data) && |data.data| == data.len)
    }

    /**
     * A frame whose header was read by a call that was later cancelled
     * declares a length within `limit`. `read_msg` keeps this for its own
     * limit, since the session key only changes once a frame is complete.
     */
    ghost predicate ResumesWithin(limit: nat)
      reads this, len, data
    {
      len.consumed == 4 ==> data.len <= limit
    }

    /** The bytes of the frame in progress that earlier, cancelled reads already consumed. */
    ghost function Progress(): Bytes
      reads this, len, data
      requires Valid()
    {
      len.Progress() + (if len.consumed == 4 then data.data[..data.consumed] else [])
    }

    constructor (io: Stream, suite: Suite, sk: Bytes)
      ensures Valid() && Progress() == [] && cipher.None?
      ensures this.io == io && this.suite == suite && this.sk == sk
      ensures fresh(len) && fresh(data)
    {
      this.io := io;
      this.suite := suite;
      this.sk := sk;
      cipher := None;
      len := new FrameLen();
      data := new FrameData();
    }

    /** `Frame::send`: refuses a payload over MAX_MESSAGE_SIZE, otherwise writes its frame. */
    method Send(buf: Bytes) returns (r: Result<(), Error>)
      modifies io`output
      ensures |buf| >= U32_LIMIT ==> r == Err(LengthOverflow)
      ensures |buf| < U32_LIMIT && |buf| > MAX_MESSAGE_SIZE ==> r == Err(InvalidData)
      ensures r.Ok? <==> |buf| <= MAX_MESSAGE_SIZE
      ensures r.Ok? ==> |buf| < U32_LIMIT && io.output == old(io.output) + EncodeFrame(buf)
      ensures r.Err? ==> io.output == old(io.output)
    {
      if |buf| >= U32_LIMIT {
        return Err(LengthOverflow);
      }
      if |buf| > MAX_MESSAGE_SIZE {
        return Err(InvalidData);
      }
      io.Write(BeBytes(|buf|));
      io.Write(buf);
      assert BeBytes(|buf|) + buf == EncodeFrame(buf);
      r := Ok(());
    }

    /** `Frame::send_msg`: seals the message under the session key with the given nonce and sends it. */
    method SendMsg(m: Message, nonce: Bytes) returns (r: Result<(), Error>)
      requires cipher.Some?
      modifies io`output
      ensures var buf := Seal(suite, cipher.value, nonce, m);
        (r.Ok? <==> |buf| <= MAX_MESSAGE_SIZE) &&
        (r.Ok? ==> |buf| < U32_LIMIT && io.output == old(io.output) + EncodeFrame(buf)) &&
        (r.Err? ==> io.output == old(io.output))
    {
      r := Send(Seal(suite, cipher.value, nonce, m));
    }

    /**
     * What `read(limit)` makes of the events still to come: the frame in
     * progress is completed from where the earlier, cancelled calls left it.
     */
    ghost function NextFrame(limit: nat): (r: Poll<Bytes>)
      reads this, len, data, io
      requires Valid()
    {
      if len.consumed < 4 then FrameFrom(len.Progress(), io.input, limit)
      else BodyFrom(data.data[..data.consumed], io.input, data.len)
    }

    /**
     * `Frame::read(limit)`: reads one frame. A declared length over `limit`
     * is refused with InvalidData and the header forgotten. A cancelled call
     * leaves its progress in place, so the next call resumes the same frame.
     * `got` is what the call took from the socket.
     */
    method Read(limit: U32) returns (r: Poll<Bytes>, ghost got: Bytes)
      requires Valid() && ResumesWithin(limit)
      modifies len`consumed, len`data, data`data, data`len, data`consumed, io
      ensures Valid() && ResumesWithin(limit)
      ensures io.output == old(io.output) && io.taken == old(io.taken) + got
      ensures r == old(NextFrame(limit))
      ensures r.Ready? ==> |r.value| <= limit && Progress() == [] && EncodeFrame(r.value) == old(Progress()) + got
      ensures r.Failed? ==> Progress() == []
      ensures r.Cancelled? ==> Progress() == old(Progress()) + got
    {
      ghost var progress0 := Progress();
      ghost var next := NextFrame(limit);
      ghost var body0 := data.data[..data.consumed];
      var l, g1 := ReadLen(limit, next, len.Progress(), progress0);
      got := g1;
      match l
      case Failed(e) =>
        return Failed(e), got;
      case Cancelled =>
        return Cancelled, got;
      case Ready(n) =>
        ghost var g2;
        r, g2 := ReadRest(limit, n, next, progress0 + g1, len.data, body0);
        got := g1 + g2;
        assert (progress0 + g1) + g2 == progress0 + got;
    }

    /**
     * The rest of `Frame::read` once the header is complete: the limit check
     * and the body read. `next` is the outcome the call must have and
     * `progress` the frame bytes read so far.
     */
    method ReadRest(limit: U32, n: U32, ghost next: Poll<Bytes>, ghost progress: Bytes, ghost header: Bytes, ghost body0: Bytes)
      returns (r: Poll<Bytes>, ghost got: Bytes)
      requires len.Valid() && len.consumed == 4 && len.data == header && n == FromBe(header)
      requires data.Valid() && (data.consumed > 0 ==> n == data.len && n <= limit) && body0 == data.data[..data.consumed]
      requires progress == header + body0
      requires n > limit ==> next == Failed(InvalidData)
      requires n <= limit ==> next == BodyFrom(body0, io.input, n)
      modifies len`consumed, data`data, data`len, data`consumed, io`input, io`taken
      ensures Valid() && ResumesWithin(limit)
      ensures io.output == old(io.output) && io.taken == old(io.taken) + got
      ensures r == next
      ensures r.Ready? ==> |r.value| <= limit && Progress() == [] && EncodeFrame(r.value) == progress + got
      ensures r.Failed? ==> Progress() == []
      ensures r.Cancelled? ==> Progress() == progress + got
    {
      if n > limit {
        len.Reset();
        return Failed(InvalidData), [];
      }
      r, got := ReadBody(n);
      assert progress + got == header + (body0 + got);
      if r.Cancelled? {
        return;
      }
      len.Reset();
      if r.Ready? {
        FromBeRoundTrip(header);
        assert EncodeFrame(r.value) == header + r.value;
      }
    }

    /**
     * The header half of `Frame::read`: completes the header and says how the
     * frame goes on. `next` is `NextFrame(limit)`, `have` the header bytes and
     * `progress` the frame bytes read before the call.
     */
    method ReadLen(limit: U32, ghost next: Poll<Bytes>, ghost have: Bytes, ghost progress: Bytes)
      returns (l: Poll<U32>, ghost got: Bytes)
      requires Valid() && ResumesWithin(limit)
      requires next == NextFrame(limit) && have == len.Progress() && progress == Progress()
      modifies len`consumed, len`data, io
      ensures len.Valid() && io.output == old(io.output) && io.taken == old(io.taken) + got
      ensures !l.Ready? ==> |have| < 4
      ensures l.Failed? ==> next == Failed(l.error) && len.consumed == 0
      ensures l.Cancelled? ==> next == Cancelled && len.consumed < 4 && len.Progress() == have + got
      ensures l.Ready? ==>
        && len.consumed == 4 && l.value == FromBe(len.data) && len.data == have + got
        && progress + got == len.data + data.data[..data.consumed]
        && (data.consumed > 0 ==> l.value == data.len)
        && (l.value > limit ==> next == Failed(InvalidData))
        && (l.value <= limit ==> next == BodyFrom(data.data[..data.consumed], io.input, l.value))
    {
      if len.consumed < 4 {
        l, got := ReadLenRest(limit, next, have, progress);
      } else {
        l, got := ReadLenDone(limit, next, have, progress);
      }
    }

    /** `ReadLen` when the header is still incomplete: no body has been read yet. */
    method ReadLenRest(limit: U32, ghost next: Poll<Bytes>, ghost have: Bytes, ghost progress: Bytes)
      returns (l: Poll<U32>, ghost got: Bytes)
      requires Valid() && len.consumed < 4
      requires have == len.Progress() && next == FrameFrom(have, io.input, limit) && progress == have
      modifies len`consumed, len`data, io
      ensures len.Valid() && io.output == old(io.output) && io.taken == old(io.taken) + got
      ensures l.Failed? ==> next == Failed(l.error) && len.consumed == 0
      ensures l.Cancelled? ==> next == Cancelled && len.consumed < 4 && len.Progress() == have + got
      ensures l.Ready? ==>
        && len.consumed == 4 && l.value == FromBe(len.data) && len.data == have + got
        && progress + got == len.data
        && (l.value > limit ==> next == Failed(InvalidData))
        && (l.value <= limit ==> next == BodyFrom([], io.input, l.value))
    {
      ghost var input0 := io.input;
      l, got := len.Read(io);
      HeaderOutcome(have, input0, limit, l, got, io.input);
    }

    /** `ReadLen` when the header is complete: `len.read` returns it at once and the body resumes. */
    method ReadLenDone(limit: U32, ghost next: Poll<Bytes>, ghost have: Bytes, ghost progress: Bytes)
      returns (l: Poll<U32>, ghost got: Bytes)
      requires Valid() && ResumesWithin(limit) && len.consumed == 4
      requires next == BodyFrom(data.data[..data.consumed], io.input, data.len)
      requires have == len.data && progress == have + data.data[..data.consumed]
      modifies len`consumed, len`data, io
      ensures len.Valid() && io.output == old(io.output) && io.taken == old(io.taken) + got
      ensures l == Ready(data.len) && got == [] && len.consumed == 4 && len.data == have
      ensures data.len == FromBe(len.data) && data.len <= limit
      ensures next == BodyFrom(data.data[..data.consumed], io.input, data.len)
    {
      ghost var input0 := io.input;
      l, got := len.Read(io);
      assert FillFrom(input0, 0) == Filled([], input0);
    }

    /**
     * `Frame::read_msg`: reads one frame under `Limit()`. After the handshake
     * the frame is unsealed under the session key with the short-frame check
     * of `Unseal`; before it, the frame is the handshake envelope, whose key
     * becomes the session key and whose uid becomes a HandshakeReq with
     * sequence number 0. `frame` is the frame read, when one was; whether one
     * is, and which, is decided by `NextFrame`.
     */
    method ReadMsg() returns (r: Poll<Message>, ghost frame: Option<Bytes>)
      requires Valid() && ResumesWithin(Limit())
      modifies this`cipher, len`consumed, len`data, data`data, data`len, data`consumed, io
      ensures Valid() && ResumesWithin(Limit()) && io.output == old(io.output)
      ensures |old(io.taken)| <= |io.taken| && io.taken[..|old(io.taken)|] == old(io.taken)
      ensures frame.Some? ==> (|frame.value| <= old(Limit()) && Progress() == [] &&
        EncodeFrame(frame.value) == old(Progress()) + io.taken[|old(io.taken)|..])
      ensures var next := old(NextFrame(Limit()));
        && (frame.Some? <==> next.Ready?)
        && (frame.Some? ==> frame.value == next.value)
        && (next.Failed? ==> r == Failed(next.error))
        && (next.Cancelled? ==> r == Cancelled)
      ensures r.Ready? ==> frame.Some?
      ensures r.Cancelled? ==> frame.None? && Progress() == old(Progress()) + io.taken[|old(io.taken)|..]
      ensures frame.None? ==> cipher == old(cipher)
      ensures frame.Some? && old(cipher).Some? ==> (cipher == old(cipher) &&
        match Unseal(suite, old(cipher).value, frame.value)
        case Ok(m) => r == Ready(m)
        case Err(e) => r == Failed(e))
      ensures frame.Some? && old(cipher).None? ==>
        match OpenHandshake(suite, sk, frame.value)
        case Ok(keyUid) => cipher == Some(keyUid.0) && r == Ready(Message(0, Some(HandshakeReq(keyUid.1))))
        case Err(e) => cipher == None && r == Failed(e)
    {
      var p, got := Read(Limit());
      match p
      case Cancelled =>
        return Cancelled, None;
      case Failed(e) =>
        return Failed(e), None;
      case Ready(buf) =>
        frame := Some(buf);
        if cipher.Some? {
          match Unseal(suite, cipher.value, buf)
          case Ok(m) =>
            r := Ready(m);
          case Err(e) =>
            r := Failed(e);
        } else {
          match OpenHandshake(suite, sk, buf)
          case Ok(keyUid) =>
            cipher := Some(keyUid.0);
            r := Ready(Message(0, Some(HandshakeReq(keyUid.1))));
          case Err(e) =>
            r := Failed(e);
        }
    }

    /** The body half of `Frame::read`: sizes the buffer to `n` and fills it, keeping earlier progress. */
    method ReadBody(n: U32) returns (r: Poll<Bytes>, ghost got: Bytes)
      requires data.Valid() && (data.consumed > 0 ==> n == data.len)
      modifies data`data, data`len, data`consumed, io`input, io`taken
      ensures data.Valid() && data.len == n
      ensures io.output == old(io.output) && io.taken == old(io.taken) + got
      ensures r == BodyFrom(old(data.data[..data.consumed]), old(io.input), n)
      ensures r.Ready? ==> data.consumed == 0 && r.value == old(data.data[..data.consumed]) + got
      ensures r.Failed? ==> data.consumed == 0
      ensures r.Cancelled? ==> |data.data| == n && data.data[..data.consumed] == old(data.data[..data.consumed]) + got
    {
      ghost var body0 := data.data[..data.consumed];
      data.Resize(n);
      assert data.data[..data.consumed] == body0;
      var d;
      d, got := data.Read(io);
      if d.Cancelled? {
        return Cancelled, got;
      }
      if d.Failed? {
        return Failed(d.error), got;
      }
      assert data.data == data.data[..data.consumed];
      var buf := data.Reset();
      r := Ready(buf);
    }
  }
}
