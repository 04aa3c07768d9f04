/** Exporting the chain in chunks (server/system_service.go) and reading it back from an
    archive (archive/restore.go). */
module Archive {
  import opened Wrappers
  import opened Words
  import opened Rlp
  import opened RlpTypes

  const MAX_HEADER_INFO_SIZE := 24
  const TWO_63: int := 0x8000_0000_0000_0000

  // ---------- The writer ----------

  datatype ExportEvent = ExportEvent(from: uint64, to: uint64, data: seq<byte>)

  datatype Writer = Writer(
    buf: seq<byte>, pendingFrom: Option<uint64>, pendingTo: Option<uint64>, sent: seq<ExportEvent>)

  predicate FitsBlock(b: Block) {
    Fits(BlockValue(b))
  }

  predicate FitBlocks(bs: seq<Block>) {
    forall i :: 0 <= i < |bs| ==> FitsBlock(bs[i])
  }

  function BlockBytes(b: Block): (r: seq<byte>)
    requires FitsBlock(b)
    ensures r != []
  {
    Encode(BlockValue(b))
  }

  /** The encodings one after the other. */
  function BlocksBytes(bs: seq<Block>): seq<byte>
    requires FitBlocks(bs)
  {
    if bs == [] then [] else BlocksBytes(bs[..|bs| - 1]) + BlockBytes(bs[|bs| - 1])
  }

  /** Sends what is buffered. */
  function Flush(w: Writer): Writer {
    if w.buf == [] || w.pendingFrom.None? || w.pendingTo.None? then w else
      Writer([], None, None, w.sent + [ExportEvent(w.pendingFrom.value, w.pendingTo.value, w.buf)])
  }

  function Append(w: Writer, b: Block, maxPayload: nat): Writer
    requires FitsBlock(b)
  {
    var data := BlockBytes(b);
    var u := if MAX_HEADER_INFO_SIZE + |w.buf| + |data| >= maxPayload then Flush(w) else w;
    var n := b.header.number;
    u.(buf := u.buf + data, pendingFrom := if u.pendingFrom.None? then Some(n) else u.pendingFrom, pendingTo := Some(n))
  }

  const EMPTY_WRITER := Writer([], None, None, [])

  function AppendAll(bs: seq<Block>, maxPayload: nat): Writer
    requires FitBlocks(bs)
  {
    if bs == [] then EMPTY_WRITER else
      Append(AppendAll(bs[..|bs| - 1], maxPayload), bs[|bs| - 1], maxPayload)
  }

  function Export(bs: seq<Block>, maxPayload: nat): seq<ExportEvent>
    requires FitBlocks(bs)
  {
    Flush(AppendAll(bs, maxPayload)).sent
  }

  // ---------- What the chunks hold ----------

  /** The event holds exactly the blocks of `chunk`, names the first and the last of them,
      and stays under the limit unless a single block exceeds it. */
  predicate ChunkOf(e: ExportEvent, chunk: seq<Block>, maxPayload: nat) {
    && chunk != [] && FitBlocks(chunk)
    && e.data == BlocksBytes(chunk)
    && e.from == chunk[0].header.number && e.to == chunk[|chunk| - 1].header.number
    && (|chunk| > 1 ==> MAX_HEADER_INFO_SIZE + |e.data| < maxPayload)
  }

  function Flatten(chunks: seq<seq<Block>>): seq<Block> {
    if chunks == [] then [] else Flatten(chunks[..|chunks| - 1]) + chunks[|chunks| - 1]
  }

  function Data(events: seq<ExportEvent>): seq<byte> {
    if events == [] then [] else Data(events[..|events| - 1]) + events[|events| - 1].data
  }

  predicate Chunked(events: seq<ExportEvent>, chunks: seq<seq<Block>>, maxPayload: nat) {
    |events| == |chunks| && forall i :: 0 <= i < |events| ==> ChunkOf(events[i], chunks[i], maxPayload)
  }

  /** The buffer as if it were sent now. */
  predicate Buffered(w: Writer, pending: seq<Block>, maxPayload: nat) {
    if pending == [] then w.buf == [] && w.pendingFrom.None? && w.pendingTo.None?
    else w.pendingFrom.Some? && w.pendingTo.Some? && w.buf != [] &&
         ChunkOf(ExportEvent(w.pendingFrom.value, w.pendingTo.value, w.buf), pending, maxPayload)
  }

  /** The chunk was sent because the block that opens the next did not fit any more. */
  predicate FullAt(events: seq<ExportEvent>, chunks: seq<seq<Block>>, i: nat, maxPayload: nat)
    requires i < |events| && i + 1 < |chunks|
  {
    var next := chunks[i + 1];
    next != [] && FitsBlock(next[0]) && MAX_HEADER_INFO_SIZE + |events[i].data| + |BlockBytes(next[0])| >= maxPayload
  }

  ghost predicate Full(events: seq<ExportEvent>, chunks: seq<seq<Block>>, maxPayload: nat) {
    forall i {:trigger FullAt(events, chunks, i, maxPayload)} ::
      0 <= i < |events| && i + 1 < |chunks| ==> FullAt(events, chunks, i, maxPayload)
  }

  /** The chunks with what is buffered as the last. */
  function AndPending(chunks: seq<seq<Block>>, pending: seq<Block>): seq<seq<Block>> {
    if pending == [] then chunks else chunks + [pending]
  }

  lemma FlattenOneMore(chunks: seq<seq<Block>>, c: seq<Block>)
    ensures Flatten(chunks + [c]) == Flatten(chunks) + c
  {
    assert (chunks + [c])[..|chunks|] == chunks;
  }

  lemma BytesOneMore(bs: seq<Block>, b: Block)
    requires FitBlocks(bs) && FitsBlock(b)
    ensures FitBlocks(bs + [b]) && BlocksBytes(bs + [b]) == BlocksBytes(bs) + BlockBytes(b)
  {
    assert (bs + [b])[..|bs|] == bs;
  }

  lemma FlushExplained(w: Writer, chunks: seq<seq<Block>>, pending: seq<Block>, maxPayload: nat)
    returns (chunks': seq<seq<Block>>)
    requires Chunked(w.sent, chunks, maxPayload) && Buffered(w, pending, maxPayload)
    ensures Chunked(Flush(w).sent, chunks', maxPayload) && Buffered(Flush(w), [], maxPayload)
    ensures Flatten(chunks') == Flatten(chunks) + pending && chunks' == AndPending(chunks, pending)
    ensures pending != [] ==> |Flush(w).sent| == |w.sent| + 1 && Flush(w).sent[..|w.sent|] == w.sent
    ensures pending != [] ==> Flush(w).sent[|w.sent|].data == w.buf
    ensures pending == [] ==> Flush(w).sent == w.sent
  {
    hide BlocksBytes, FitsBlock;
    if pending == [] {
      chunks' := chunks;
      assert Flatten(chunks) + [] == Flatten(chunks);
    } else {
      chunks' := chunks + [pending];
      FlattenOneMore(chunks, pending);
    }
  }

  lemma BufferOneMore(w: Writer, pending: seq<Block>, b: Block, maxPayload: nat)
    requires Buffered(w, pending, maxPayload) && FitsBlock(b)
    requires pending != [] ==> MAX_HEADER_INFO_SIZE + |w.buf| + |BlockBytes(b)| < maxPayload
    ensures var n := b.header.number;
            Buffered(w.(buf := w.buf + BlockBytes(b), pendingTo := Some(n),
                        pendingFrom := if w.pendingFrom.None? then Some(n) else w.pendingFrom),
                     pending + [b], maxPayload)
  {
    hide BlockBytes, FitsBlock, BlocksBytes;
    assert FitBlocks(pending);
    BytesOneMore(pending, b);
    NoBlocksNoBytes();
  }

  lemma NoBlocksNoBytes()
    ensures BlocksBytes([]) == []
  {
  }

  /** What was sent, and what is buffered, explained by the blocks they hold. */
  ghost predicate Explained(w: Writer, chunks: seq<seq<Block>>, pending: seq<Block>, maxPayload: nat) {
    && Chunked(w.sent, chunks, maxPayload) && Buffered(w, pending, maxPayload)
    && Full(w.sent, AndPending(chunks, pending), maxPayload) && (pending == [] ==> chunks == [])
  }

  lemma AppendExplained(w: Writer, chunks: seq<seq<Block>>, pending: seq<Block>, b: Block, maxPayload: nat)
    returns (chunks': seq<seq<Block>>, pending': seq<Block>)
    requires Explained(w, chunks, pending, maxPayload) && FitsBlock(b)
    ensures Explained(Append(w, b, maxPayload), chunks', pending', maxPayload) && pending' != []
    ensures Flatten(chunks') + pending' == Flatten(chunks) + pending + [b]
  {
    hide Flush, Buffered, BlockBytes, FitsBlock, ChunkOf, Full, Flatten;
    if MAX_HEADER_INFO_SIZE + |w.buf| + |BlockBytes(b)| >= maxPayload {
      chunks' := FlushExplained(w, chunks, pending, maxPayload);
      FlushedFull(w.sent, Flush(w).sent, |w.buf|, chunks', b, maxPayload);
      BufferOneMore(Flush(w), [], b, maxPayload);
      pending' := [b];
      assert [] + [b] == [b];
    } else {
      BufferOneMore(w, pending, b, maxPayload);
      GrownFull(w.sent, chunks, pending, b, maxPayload);
      chunks', pending' := chunks, pending + [b];
      assert Flatten(chunks) + (pending + [b]) == Flatten(chunks) + pending + [b];
    }
  }

  lemma {:induction false} AppendAllExplained(bs: seq<Block>, maxPayload: nat)
    returns (chunks: seq<seq<Block>>, pending: seq<Block>)
    requires FitBlocks(bs)
    ensures Explained(AppendAll(bs, maxPayload), chunks, pending, maxPayload) && Flatten(chunks) + pending == bs
  {
    hide Explained, Append, FitsBlock;
    if bs == [] {
      chunks, pending := [], [];
      NothingExplained(maxPayload);
    } else {
      var n := |bs| - 1;
      chunks, pending := AppendAllExplained(bs[..n], maxPayload);
      chunks, pending := AppendExplained(AppendAll(bs[..n], maxPayload), chunks, pending, bs[n], maxPayload);
      assert bs == bs[..n] + [bs[n]];
    }
  }

  lemma NothingExplained(maxPayload: nat)
    ensures Explained(EMPTY_WRITER, [], [], maxPayload)
  {
  }

  lemma FlushedFull(events: seq<ExportEvent>, events': seq<ExportEvent>, size: nat, sent: seq<seq<Block>>, b: Block, maxPayload: nat)
    requires Full(events, sent, maxPayload) && FitsBlock(b)
    requires MAX_HEADER_INFO_SIZE + size + |BlockBytes(b)| >= maxPayload
    requires |events'| == |sent| && |events| <= |events'| && events'[..|events|] == events
    requires if sent == [] then events' == events else |events'| == |events| + 1 && |events'[|events|].data| == size
    ensures Full(events', sent + [[b]], maxPayload)
  {
    hide BlockBytes, FitsBlock;
    forall i | 0 <= i < |events'| && i + 1 < |sent + [[b]]| ensures FullAt(events', sent + [[b]], i, maxPayload) {
      if i < |events| {
        assert FullAt(events, sent, i, maxPayload);
        assert events'[i] == events[i];
      }
    }
  }

  lemma GrownFull(events: seq<ExportEvent>, chunks: seq<seq<Block>>, pending: seq<Block>, b: Block, maxPayload: nat)
    requires |events| == |chunks| && Full(events, AndPending(chunks, pending), maxPayload)
    requires pending == [] ==> chunks == []
    ensures Full(events, AndPending(chunks, pending + [b]), maxPayload)
  {
    hide BlockBytes, FitsBlock;
    var before, after := AndPending(chunks, pending), AndPending(chunks, pending + [b]);
    forall i | 0 <= i < |events| && i + 1 < |after| ensures FullAt(events, after, i, maxPayload) {
      assert FullAt(events, before, i, maxPayload);
    }
  }

  /** An export cuts the blocks into chunks: every block once, in order, and a chunk ends only
      where the next block does not fit. */
  lemma ExportCutsIntoChunks(bs: seq<Block>, maxPayload: nat)
    returns (chunks: seq<seq<Block>>)
    requires FitBlocks(bs)
    ensures Chunked(Export(bs, maxPayload), chunks, maxPayload) && Flatten(chunks) == bs
    ensures Full(Export(bs, maxPayload), chunks, maxPayload)
  {
    hide Flush, Buffered, ChunkOf, AppendAll, Full;
    var pending;
    chunks, pending := AppendAllExplained(bs, maxPayload);
    var w := AppendAll(bs, maxPayload);
    chunks := FlushExplained(w, chunks, pending, maxPayload);
    SentFull(w.sent, Flush(w).sent, chunks, maxPayload);
  }

  lemma SentFull(events: seq<ExportEvent>, events': seq<ExportEvent>, chunks: seq<seq<Block>>, maxPayload: nat)
    requires Full(events, chunks, maxPayload) && |chunks| == |events'| <= |events| + 1
    requires |events| <= |events'| && events'[..|events|] == events
    ensures Full(events', chunks, maxPayload)
  {
    hide BlockBytes, FitsBlock;
    forall i | 0 <= i < |events'| && i + 1 < |chunks| ensures FullAt(events', chunks, i, maxPayload) {
      assert FullAt(events, chunks, i, maxPayload);
      assert events'[i] == events[i];
    }
  }

  lemma {:induction false} BytesConcat(cs: seq<Block>, bs: seq<Block>)
    requires FitBlocks(cs) && FitBlocks(bs)
    ensures FitBlocks(cs + bs) && BlocksBytes(cs + bs) == BlocksBytes(cs) + BlocksBytes(bs)
  {
    hide BlockBytes, FitsBlock;
    if bs == [] {
      assert cs + bs == cs;
    } else {
      var n := |bs| - 1;
      BytesConcat(cs, bs[..n]);
      assert cs + bs == (cs + bs[..n]) + [bs[n]];
      BytesOneMore(cs + bs[..n], bs[n]);
    }
  }

  lemma {:induction false} ChunksHoldAll(events: seq<ExportEvent>, chunks: seq<seq<Block>>, maxPayload: nat)
    requires Chunked(events, chunks, maxPayload)
    ensures FitBlocks(Flatten(chunks)) && Data(events) == BlocksBytes(Flatten(chunks))
  {
    hide BlockBytes, FitsBlock;
    if events != [] {
      var n := |events| - 1;
      ChunksHoldAll(events[..n], chunks[..n], maxPayload);
      assert ChunkOf(events[n], chunks[n], maxPayload);
      BytesConcat(Flatten(chunks[..n]), chunks[n]);
    }
  }

  /** The chunks, put together, are the encodings of all blocks, put together. */
  lemma {:induction false} ExportIsLossless(bs: seq<Block>, maxPayload: nat)
    requires FitBlocks(bs)
    ensures Data(Export(bs, maxPayload)) == BlocksBytes(bs)
  {
    hide Export;
    var chunks := ExportCutsIntoChunks(bs, maxPayload);
    ChunksHoldAll(Export(bs, maxPayload), chunks, maxPayload);
  }

  // ---------- The reader ----------

  /** `Panics`: a size that no buffer can have. */
  datatype Load = Loaded(size: nat) | EndOfStream | UnexpectedEnd | NotAnArray | Panics

  /** What is left of the input, and the buffer with all its capacity. */
  datatype Stream = Stream(input: seq<byte>, buffer: seq<byte>)

  function Reserve(buffer: seq<byte>, size: nat): (r: seq<byte>)
    ensures |r| >= size && |r| >= |buffer| && r[..|buffer|] == buffer
  {
    if size > |buffer| then buffer + Zeros(size - |buffer|) else buffer
  }

  function Min(a: nat, b: nat): nat {
    if a < b then a else b
  }

  /** A read at `offset` of as many bytes as there are, up to `n`. */
  function Fill(s: Stream, offset: nat, n: nat): (r: Stream)
    requires offset + n <= |s.buffer|
    ensures |r.buffer| == |s.buffer|
  {
    var k := Min(n, |s.input|);
    Stream(s.input[k..], s.buffer[..offset] + s.input[..k] + s.buffer[offset + k..])
  }

  /** The header size and payload size that the first byte, `p`, announces. */
  function PrefixSize(s: Stream, p: byte): (r: (Stream, Load, nat, nat))
    requires |s.buffer| >= 1
    ensures |r.0.buffer| >= 1 && |r.0.input| <= |s.input|
    ensures r.1.Loaded? ==> r.2 <= 9 && r.3 < TWO_64
  {
    if p < 0xc0 then (s, NotAnArray, 0, 0)
    else if p < 0xf8 then (s, Loaded(0), 1, p - 0xc0)
    else
      var n := p - 0xf7;
      var s1 := s.(buffer := Reserve(s.buffer, 1 + n));
      var s2 := Fill(s1, 1, n);
      if |s1.input| < n then (s2, UnexpectedEnd, 0, 0) else
        UintFits(s2.buffer[1..1 + n]);
        (s2, Loaded(0), 1 + n, FromBigEndian(s2.buffer[1..1 + n]))
  }

  function LoadPrefix(s: Stream): (r: (Stream, Load, nat, nat))
    requires |s.buffer| >= 1
    ensures |r.0.buffer| >= 1
  {
    if s.input == [] then (s, EndOfStream, 0, 0) else PrefixSize(Fill(s, 0, 1), s.input[0])
  }

  /** How much of the payload was there is not looked at. */
  function LoadPayload(s: Stream, offset: nat, size: nat): (r: (Stream, Load))
    ensures r.1.Loaded? ==> |r.0.buffer| >= offset + size
    ensures |r.0.buffer| >= |s.buffer|
  {
    if offset + size >= TWO_63 then (s, Panics) else
      var s1 := s.(buffer := Reserve(s.buffer, offset + size));
      if size > 0 && s1.input == [] then (s1, UnexpectedEnd)
      else (Fill(s1, offset, size), Loaded(offset + size))
  }

  function LoadArray(s: Stream): (r: (Stream, Load))
    requires |s.buffer| >= 1
    ensures |r.0.buffer| >= 1
    ensures r.1.Loaded? ==> |r.0.buffer| >= r.1.size
  {
    var (s1, prefix, headerSize, payloadSize) := LoadPrefix(s);
    if !prefix.Loaded? then (s1, prefix) else LoadPayload(s1, headerSize, payloadSize)
  }

  // ---------- Reading back what was written ----------

  lemma FillExactly(s: Stream, offset: nat, data: seq<byte>, tail: seq<byte>)
    requires offset + |data| <= |s.buffer| && s.input == data + tail
    ensures var r := Fill(s, offset, |data|);
            r.input == tail && r.buffer[..offset] == s.buffer[..offset] && r.buffer[offset..offset + |data|] == data
  {
  }

  lemma LoadPrefixOfHead(s: Stream, n: nat, tail: seq<byte>)
    requires |s.buffer| >= 1 && n < TWO_64 && s.input == Head(0xc0, n) + tail
    ensures var (s1, prefix, headerSize, payloadSize) := LoadPrefix(s);
            && prefix.Loaded? && s1.input == tail && headerSize == |Head(0xc0, n)| && payloadSize == n
            && |s1.buffer| >= headerSize && s1.buffer[..headerSize] == Head(0xc0, n)
  {
    var h := Head(0xc0, n);
    assert s.input == h[..1] + (h[1..] + tail);
    FillExactly(s, 0, h[..1], h[1..] + tail);
    var s1 := Fill(s, 0, 1);
    if n >= 56 {
      LengthFits(n);
      var l := BigEndian(n);
      assert h[1..] == l && h[0] == 0xf7 + |l|;
      var s2 := s1.(buffer := Reserve(s1.buffer, 1 + |l|));
      FillExactly(s2, 1, l, tail);
      BigEndianRoundTrip(n);
      assert h == h[..1] + l;
      var s3 := Fill(s2, 1, |l|);
      HeadRead(s1.buffer, s2.buffer, s3.buffer, h[..1], l);
    } else {
      assert h[..1] == h && h[1..] + tail == tail;
    }
  }

  lemma HeadRead(b1: seq<byte>, b2: seq<byte>, b3: seq<byte>, a: seq<byte>, l: seq<byte>)
    requires |a| == 1 && |b1| >= 1 && b1[0..1] == a && |b2| >= 1 + |l| && |b2| >= |b1| && b2[..|b1|] == b1
    requires |b3| == |b2| && b3[..1] == b2[..1] && b3[1..1 + |l|] == l
    ensures b3[..1 + |l|] == a + l
  {
    assert b2[0] == b2[..|b1|][0] == b1[0] == b1[0..1][0] == a[0];
    assert b3[0] == b3[..1][0] == b2[..1][0] == b2[0];
    assert b3[..1 + |l|] == b3[..1] + b3[1..1 + |l|];
  }

  lemma LoadPayloadExactly(s: Stream, head: seq<byte>, payload: seq<byte>, tail: seq<byte>)
    requires |head| <= |s.buffer| && s.buffer[..|head|] == head && s.input == payload + tail
    requires |head| + |payload| < TWO_63
    ensures var (r, load) := LoadPayload(s, |head|, |payload|);
            && load == Loaded(|head| + |payload|) && r.input == tail
            && r.buffer[..|head| + |payload|] == head + payload
  {
    var n := |head|;
    var s1 := s.(buffer := Reserve(s.buffer, n + |payload|));
    FillExactly(s1, n, payload, tail);
    var r := Fill(s1, n, |payload|);
    assert s1.buffer[..n] == s1.buffer[..|s.buffer|][..n] == s.buffer[..n];
    assert r.buffer[..n + |payload|] == r.buffer[..n] + r.buffer[n..n + |payload|];
  }

  /** Loading takes exactly one list off a stream that starts with its encoding. */
  lemma LoadArrayOfEncoding(s: Stream, items: seq<Value>, tail: seq<byte>)
    requires |s.buffer| >= 1 && Fits(List(items)) && Size(List(items)) < TWO_63
    requires s.input == Encode(List(items)) + tail
    ensures var (r, load) := LoadArray(s);
            && load == Loaded(|Encode(List(items))|) && r.input == tail
            && r.buffer[..load.size] == Encode(List(items))
  {
    var n, payload := PayloadSize(items), EncodeAll(items);
    var h := Head(0xc0, n);
    assert s.input == h + (payload + tail);
    LoadPrefixOfHead(s, n, payload + tail);
    var s1 := LoadPrefix(s).0;
    LoadPayloadExactly(s1, h, payload, tail);
  }

  /** The load reports success as soon as one byte of the payload is there, but it delivers
      the next bytes of the stream exactly when the whole payload is. */
  lemma LoadDeliversIff(s: Stream, n: nat, rest: seq<byte>)
    requires |s.buffer| >= 1 && n < TWO_64 && |Head(0xc0, n)| + n < TWO_63 && s.input == Head(0xc0, n) + rest
    ensures var (r, load) := LoadArray(s);
            && (load.Loaded? <==> n == 0 || rest != [])
            && (load.Loaded? && r.buffer[..load.size] <= s.input && r.input == s.input[load.size..] <==> n <= |rest|)
  {
    hide Fill;
    LoadPrefixOfHead(s, n, rest);
    var h, s1 := Head(0xc0, n), LoadPrefix(s).0;
    var (r, load) := LoadPayload(s1, |h|, n);
    if n <= |rest| {
      assert rest == rest[..n] + rest[n..];
      LoadPayloadExactly(s1, h, rest[..n], rest[n..]);
      assert s.input == h + rest[..n] + rest[n..];
    }
  }

  // ---------- A whole archive ----------

  datatype NextBlock = Next(block: Block) | NoMore | Failed(load: Load)

  function ReadBlock(s: Stream): (r: (Stream, NextBlock))
    requires |s.buffer| >= 1
    ensures |r.0.buffer| >= 1
  {
    var (s1, load) := LoadArray(s);
    if load.EndOfStream? then (s1, NoMore)
    else if !load.Loaded? then (s1, Failed(load))
    else match Unmarshal(s1.buffer[..load.size], DecodeBlock)
         case Some(b) => (s1, Next(b))
         case None => (s1, Failed(load))
  }

  /** Blocks up to the end of the stream, or none if anything fails. */
  function ReadBlocks(s: Stream): Option<seq<Block>>
    requires |s.buffer| >= 1
    decreases |s.input|
  {
    var (s1, next) := ReadBlock(s);
    match next
    case NoMore => Some([])
    case Failed(_) => None
    case Next(b) =>
      ReadsSomething(s);
      var others :- ReadBlocks(s1);
      Some([b] + others)
  }

  /** The blocks already read, before what the rest of the stream yields. */
  function After(done: seq<Block>, others: Option<seq<Block>>): Option<seq<Block>> {
    match others
    case Some(bs) => Some(done + bs)
    case None => None
  }

  lemma AfterNone(others: Option<seq<Block>>)
    ensures After([], others) == others
  {
    assert others.Some? ==> [] + others.value == others.value;
  }

  lemma AfterOneMore(done: seq<Block>, s: Stream)
    requires |s.buffer| >= 1 && ReadBlock(s).1.Next?
    ensures After(done, ReadBlocks(s)) == After(done + [ReadBlock(s).1.block], ReadBlocks(ReadBlock(s).0))
  {
    hide ReadBlock;
    var others := ReadBlocks(ReadBlock(s).0);
    assert others.Some? ==> done + ([ReadBlock(s).1.block] + others.value) ==
                            done + [ReadBlock(s).1.block] + others.value;
  }

  lemma ReadMakesProgress(s: Stream)
    requires |s.buffer| >= 1 && ReadBlock(s).1.Next?
    ensures |ReadBlock(s).0.input| < |s.input|
  {
    ReadsSomething(s);
  }

  lemma ReadsSomething(s: Stream)
    requires |s.buffer| >= 1 && LoadArray(s).1.Loaded?
    ensures |LoadArray(s).0.input| < |s.input|
  {
  }

  /** No block is as large as 2^63 bytes. */
  predicate Loadable(bs: seq<Block>) {
    forall i :: 0 <= i < |bs| ==> FitsBlock(bs[i]) && Size(BlockValue(bs[i])) < TWO_63
  }

  lemma ReadBlockOfBytes(s: Stream, b: Block, tail: seq<byte>)
    requires |s.buffer| >= 1 && FitsBlock(b) && Size(BlockValue(b)) < TWO_63 && s.input == BlockBytes(b) + tail
    ensures ReadBlock(s).1 == Next(CarriedBlock(b)) && ReadBlock(s).0.input == tail
  {
    hide DecodeBlock, CarriedBlock, OnWire, HeaderValue;
    LoadArrayOfEncoding(s, BlockValue(b).items, tail);
    BlockBytesRoundTrip(b);
  }

  lemma BytesFirst(bs: seq<Block>)
    requires FitBlocks(bs) && bs != []
    ensures FitBlocks(bs[1..]) && BlocksBytes(bs) == BlockBytes(bs[0]) + BlocksBytes(bs[1..])
  {
    hide BlockBytes, FitsBlock, BlocksBytes;
    OneBlockBytes(bs[0]);
    assert bs == [bs[0]] + bs[1..];
    BytesConcat([bs[0]], bs[1..]);
  }

  lemma OneBlockBytes(b: Block)
    requires FitsBlock(b)
    ensures FitBlocks([b]) && BlocksBytes([b]) == BlockBytes(b)
  {
    hide BlockBytes, FitsBlock, BlocksBytes;
    var none: seq<Block> := [];
    assert none + [b] == [b];
    BytesOneMore(none, b);
    NoBlocksNoBytes();
  }

  lemma {:induction false} ReadBlocksOfBytes(s: Stream, bs: seq<Block>)
    requires |s.buffer| >= 1 && Loadable(bs)
    requires FitBlocks(bs) && s.input == BlocksBytes(bs)
    ensures ReadBlocks(s) == Some(Mapped(bs, CarriedBlock))
    decreases |bs|
  {
    hide BlockBytes, FitsBlock, CarriedBlock, ReadBlock, BlocksBytes, Fits, Size;
    if bs == [] {
      NoBlocksNoBytes();
      ReadNothing(s);
    } else {
      BytesFirst(bs);
      ReadBlockOfBytes(s, bs[0], BlocksBytes(bs[1..]));
      ReadBlocksOfBytes(ReadBlock(s).0, bs[1..]);
      assert Mapped(bs, CarriedBlock) == [CarriedBlock(bs[0])] + Mapped(bs[1..], CarriedBlock);
    }
  }

  lemma ReadNothing(s: Stream)
    requires |s.buffer| >= 1 && s.input == []
    ensures ReadBlock(s) == (s, NoMore)
  {
  }

  /** Export, then restore: whatever the size of the chunks and whatever the buffer holds,
      the archive yields its metadata, then every block in order, then the end. */
  lemma RestoreUndoesExport(m: Metadata, bs: seq<Block>, maxPayload: nat, buffer: seq<byte>)
    requires |buffer| >= 1 && Loadable(bs)
    ensures Fits(MetadataValue(m)) && FitBlocks(bs)
    ensures var s := Stream(Encode(MetadataValue(m)) + Data(Export(bs, maxPayload)), buffer);
            var (s1, load) := LoadArray(s);
            && load.Loaded? && Unmarshal(s1.buffer[..load.size], DecodeMetadata) == Some(m)
            && ReadBlocks(s1) == Some(Mapped(bs, CarriedBlock))
  {
    hide Export, BlocksBytes, LoadArray, ReadBlocks, CarriedBlock, DecodeMetadata, FitsBlock;
    ExportIsLossless(bs, maxPayload);
    MetadataSmall(m);
    var s := Stream(Encode(MetadataValue(m)) + Data(Export(bs, maxPayload)), buffer);
    LoadArrayOfEncoding(s, MetadataValue(m).items, Data(Export(bs, maxPayload)));
    MarshalRoundTrip(MetadataValue(m), DecodeMetadata);
    MetadataRoundTrip(m);
    ReadBlocksOfBytes(LoadArray(s).0, bs);
  }

  lemma MetadataSmall(m: Metadata)
    ensures Fits(MetadataValue(m)) && Size(MetadataValue(m)) < TWO_63
  {
    SmallUint(m.latest);
    var items := MetadataValue(m).items;
    assert items[1..] == [items[1]] && items[1..][1..] == [];
    assert PayloadSize(items) == Size(items[0]) + (Size(items[1]) + PayloadSize([]));
  }
}

/** The writer and the reader as they run. */
module ArchiveHeap {
  import opened Wrappers
  import opened Words
  import opened Rlp
  import opened RlpTypes
  import opened Archive

  class BlockStreamWriter {
    const maxPayload: nat
    var buf: seq<byte>
    var pendingFrom: Option<uint64>
    var pendingTo: Option<uint64>
    /** What went out on the stream. */
    var sent: seq<ExportEvent>

    ghost function Value(): Writer
      reads this
    {
      Writer(buf, pendingFrom, pendingTo, sent)
    }

    constructor (maxPayload: nat)
      ensures Value() == EMPTY_WRITER && this.maxPayload == maxPayload
    {
      this.maxPayload := maxPayload;
      buf, pendingFrom, pendingTo, sent := [], None, None, [];
    }

    method AppendBlock(b: Block)
      requires FitsBlock(b)
      modifies this
      ensures Value() == Append(old(Value()), b, maxPayload)
    {
      hide BlockBytes;
      var data := BlockBytes(b);
      if MAX_HEADER_INFO_SIZE + |buf| + |data| >= maxPayload {
        FlushBuffer();
      }
      buf := buf + data;
      var n := b.header.number;
      if pendingFrom.None? {
        pendingFrom := Some(n);
      }
      pendingTo := Some(n);
    }

    method FlushBuffer()
      modifies this
      ensures Value() == Flush(old(Value()))
    {
      if buf == [] {
        return;
      }
      if pendingFrom.None? || pendingTo.None? {
        return;
      }
      sent := sent + [ExportEvent(pendingFrom.value, pendingTo.value, buf)];
      Reset();
    }

    method Reset()
      modifies this`buf, this`pendingFrom, this`pendingTo
      ensures buf == [] && pendingFrom.None? && pendingTo.None?
    {
      buf, pendingFrom, pendingTo := [], None, None;
    }
  }

  /** The blocks an export visits: from `i` on, until one is missing or lies above the last
      one wanted, which is asked for again at every height. */
  function Visited(chain: map<uint64, Block>, i: nat, last: nat -> uint64): (r: seq<Block>)
    decreases TWO_64 - i
  {
    if i <= last(i) && i in chain then [chain[i]] + Visited(chain, i + 1, last) else []
  }

  lemma {:induction false} VisitedFit(chain: map<uint64, Block>, i: nat, last: nat -> uint64)
    requires forall n :: n in chain ==> FitsBlock(chain[n])
    ensures FitBlocks(Visited(chain, i, last))
    decreases TWO_64 - i
  {
    hide FitsBlock;
    if i <= last(i) && i in chain {
      VisitedFit(chain, i + 1, last);
    }
  }

  lemma VisitedStep(chain: map<uint64, Block>, i: nat, last: nat -> uint64)
    ensures Visited(chain, i, last) ==
            if i <= last(i) && i in chain then [chain[i]] + Visited(chain, i + 1, last) else []
  {
  }

  /** The export visits consecutive heights from `i` on, and stops where a block is missing or
      not wanted any more. */
  lemma {:induction false} VisitedAre(chain: map<uint64, Block>, i: nat, last: nat -> uint64, k: nat)
    ensures var n := |Visited(chain, i, last)|;
            && (k < n ==> i + k in chain && i + k <= last(i + k) && Visited(chain, i, last)[k] == chain[i + k])
            && !(i + n in chain && i + n <= last(i + n))
    decreases TWO_64 - i
  {
    if i <= last(i) && i in chain {
      VisitedAre(chain, i + 1, last, if k == 0 then 0 else k - 1);
    }
  }

  lemma NothingAppended(maxPayload: nat)
    ensures AppendAll([], maxPayload) == EMPTY_WRITER
  {
  }

  lemma AppendOneMore(bs: seq<Block>, b: Block, maxPayload: nat)
    requires FitBlocks(bs) && FitsBlock(b)
    ensures FitBlocks(bs + [b]) && AppendAll(bs + [b], maxPayload) == Append(AppendAll(bs, maxPayload), b, maxPayload)
  {
    hide FitsBlock, Append;
    assert (bs + [b])[..|bs|] == bs;
  }

  function Last(to: uint64, heads: nat -> uint64): nat -> uint64 {
    i => if to == 0 then heads(i) else to
  }

  /** `to` zero means up to the head of the chain, whose number when height `i` is reached is
      `heads(i)`. */
  method ExportBlocks(chain: map<uint64, Block>, heads: nat -> uint64, from: uint64, to: uint64, maxPayload: nat)
    returns (ok: bool, events: seq<ExportEvent>)
    requires forall n :: n in chain ==> FitsBlock(chain[n])
    ensures ok <==> to == 0 || from < to
    ensures var visited := Visited(chain, from, Last(to, heads));
            ok ==> FitBlocks(visited) && events == Export(visited, maxPayload) && Data(events) == BlocksBytes(visited)
  {
    hide FitsBlock, Append, Flush, BlocksBytes, Visited, AppendAll;
    if to != 0 && from >= to {
      return false, [];
    }
    var last := Last(to, heads);
    VisitedFit(chain, from, last);
    var writer := new BlockStreamWriter(maxPayload);
    var i: nat := from;
    ghost var seen: seq<Block> := [];
    NothingAppended(maxPayload);
    assert seen + Visited(chain, i, last) == Visited(chain, from, last);
    while i <= last(i) && i in chain
      invariant FitBlocks(seen) && seen + Visited(chain, i, last) == Visited(chain, from, last)
      invariant writer.Value() == AppendAll(seen, maxPayload) && fresh(writer) && writer.maxPayload == maxPayload
      decreases TWO_64 - i
    {
      VisitedStep(chain, i, last);
      AppendOneMore(seen, chain[i], maxPayload);
      writer.AppendBlock(chain[i]);
      assert seen + ([chain[i]] + Visited(chain, i + 1, last)) == seen + [chain[i]] + Visited(chain, i + 1, last);
      seen := seen + [chain[i]];
      i := i + 1;
    }
    VisitedStep(chain, i, last);
    assert seen + [] == seen;
    writer.FlushBuffer();
    ExportIsLossless(seen, maxPayload);
    ok, events := true, writer.sent;
  }

  class BlockStream {
    /** What the reader has not delivered yet. */
    var input: seq<byte>
    var buffer: array<byte>

    ghost predicate Valid()
      reads this
    {
      buffer.Length >= 1
    }

    ghost function Value(): Stream
      reads this, buffer
    {
      Stream(input, buffer[..])
    }

    constructor (input: seq<byte>)
      ensures Valid() && Value() == Stream(input, Zeros(1024)) && fresh(buffer)
    {
      this.input := input;
      buffer := new byte[1024](_ => 0);
      new;
      assert buffer[..] == Zeros(1024);
    }

    /** Reads into the buffer at `offset`; `read` counts the bytes that were there. */
    method Read(offset: nat, n: nat) returns (read: nat)
      requires offset + n <= buffer.Length
      modifies this`input, buffer
      ensures Value() == Fill(old(Value()), offset, n) && read == Min(n, |old(input)|)
      ensures buffer == old(buffer)
    {
      ghost var was := buffer[..];
      read := Min(n, |input|);
      for i := 0 to read
        invariant input == old(input) && read <= |input| && buffer == old(buffer)
        invariant buffer[..] == was[..offset] + input[..i] + was[offset + i..]
      {
        buffer[offset + i] := input[i];
      }
      input := input[read..];
    }

    /** Makes sure the buffer has the given size. */
    method ReserveCap(size: nat)
      modifies this`buffer
      ensures Value() == old(Value()).(buffer := Reserve(old(Value()).buffer, size))
      ensures buffer == old(buffer) || fresh(buffer)
    {
      if size > buffer.Length {
        var full, bigger := buffer, new byte[size](_ => 0);
        for i := 0 to full.Length
          invariant forall k :: 0 <= k < i ==> bigger[k] == full[k]
          invariant forall k :: i <= k < size ==> bigger[k] == 0
        {
          bigger[i] := full[i];
        }
        assert bigger[..] == full[..] + Zeros(size - full.Length);
        buffer := bigger;
      }
    }

    method LoadRLPPrefix() returns (prefix: Option<byte>)
      requires Valid()
      modifies this`input, buffer
      ensures Valid() && buffer == old(buffer)
      ensures prefix.None? <==> old(input) == []
      ensures prefix.None? ==> Value() == old(Value())
      ensures prefix.Some? ==> prefix.value == old(input)[0] && Value() == Fill(old(Value()), 0, 1)
    {
      if input == [] {
        return None;
      }
      prefix := Some(input[0]);
      var n := Read(0, 1);
    }

    method LoadPrefixSize(prefix: byte) returns (load: Load, headerSize: nat, payloadSize: nat)
      requires Valid()
      modifies this, buffer
      ensures Valid() && (buffer == old(buffer) || fresh(buffer))
      ensures (Value(), load, headerSize, payloadSize) == PrefixSize(old(Value()), prefix)
    {
      hide Fill, Reserve;
      headerSize, payloadSize := 0, 0;
      if prefix < 0xc0 {
        return NotAnArray, 0, 0;
      }
      if prefix < 0xf8 {
        return Loaded(0), 1, prefix - 0xc0;
      }
      var size := prefix - 0xf7;
      ReserveCap(1 + size);
      var n := Read(1, size);
      if n < size {
        return UnexpectedEnd, 0, 0;
      }
      load, headerSize, payloadSize := Loaded(0), 1 + size, FromBigEndian(buffer[1..1 + size]);
      assert buffer[1..1 + size] == buffer[..][1..1 + size];
    }

    method LoadPayload(offset: nat, size: nat) returns (load: Load)
      requires Valid()
      modifies this, buffer
      ensures Valid() && (buffer == old(buffer) || fresh(buffer))
      ensures (Value(), load) == Archive.LoadPayload(old(Value()), offset, size)
    {
      hide Fill, Reserve;
      if offset + size >= TWO_63 {
        return Panics;
      }
      ReserveCap(offset + size);
      if size > 0 && input == [] {
        return UnexpectedEnd;
      }
      var n := Read(offset, size);
      load := Loaded(offset + size);
    }

    method LoadRLPArray() returns (load: Load)
      requires Valid()
      modifies this, buffer
      ensures Valid() && (buffer == old(buffer) || fresh(buffer))
      ensures (Value(), load) == LoadArray(old(Value()))
    {
      hide Fill, Archive.LoadPayload, PrefixSize;
      var prefix := LoadRLPPrefix();
      if prefix.None? {
        return EndOfStream;
      }
      var headerSize, payloadSize;
      load, headerSize, payloadSize := LoadPrefixSize(prefix.value);
      if load.Loaded? {
        load := LoadPayload(headerSize, payloadSize);
      }
    }

    method NextBlock() returns (next: NextBlock)
      requires Valid()
      modifies this, buffer
      ensures Valid() && (buffer == old(buffer) || fresh(buffer))
      ensures (Value(), next) == ReadBlock(old(Value()))
    {
      hide LoadArray, Unmarshal, DecodeBlock;
      var load := LoadRLPArray();
      if load.EndOfStream? {
        return NoMore;
      }
      if !load.Loaded? {
        return Failed(load);
      }
      assert buffer[..][..load.size] == buffer[..load.size];
      match Unmarshal(buffer[..load.size], DecodeBlock)
      case Some(b) => next := Next(b);
      case None => next := Failed(load);
    }

    /** Takes blocks off the stream until it ends or fails. */
    method Restore() returns (blocks: Option<seq<Block>>)
      requires Valid()
      modifies this, buffer
      ensures blocks == ReadBlocks(old(Value()))
    {
      hide ReadBlock, LoadArray;
      var done := [];
      ghost var goal := ReadBlocks(Value());
      var next := NextBlock();
      ghost var at := old(Value());
      AfterNone(goal);
      while next.Next?
        invariant Valid() && (buffer == old(buffer) || fresh(buffer))
        invariant |at.buffer| >= 1 && (Value(), next) == ReadBlock(at)
        invariant goal == After(done, ReadBlocks(at))
        decreases |at.input|
      {
        ReadMakesProgress(at);
        AfterOneMore(done, at);
        done := done + [next.block];
        at := Value();
        next := NextBlock();
      }
      if next.NoMore? {
        assert done + [] == done;
        return Some(done);
      }
      blocks := None;
    }
  }
}
