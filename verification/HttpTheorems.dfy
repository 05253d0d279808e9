/** The theorems about the byte machine carried over to the buffered parser, for any cutting of its input. */
module HttpTheorems {
  import opened Common
  import opened Events
  import opened HttpTypes
  import opened HttpSpec
  import opened HttpLengths
  import opened HttpLines
  import opened HttpMessages
  import opened HttpParser

  // ---- the numbers a sender writes -------------------------------------------------

  function DigitByte(d: nat): byte
    requires d < 16
  {
    if d < 10 then 48 + d else 97 + (d - 10)
  }

  /** Positional notation without leading zeros. */
  function Digits(base: nat, n: nat): seq<byte>
    requires 2 <= base <= 16
  {
    if n < base then [DigitByte(n)] else Digits(base, n / base) + [DigitByte(n % base)]
  }

  lemma DigitByteValue(d: nat)
    requires d < 16
    ensures Unhex(DigitByte(d)) == d && (d < 10 ==> IsNum(DigitByte(d)))
  {
  }

  lemma {:induction false} DigitsValue(base: nat, n: nat)
    requires 2 <= base <= 16
    ensures var s := Digits(base, n);
            && Value(base, s) == n && ChunkDigits(s)
            && (base <= 10 ==> DecimalValue(s))
    decreases n
  {
    hide Unhex, DigitByte, IsNum, Value, ChunkDigits, DecimalValue;
    if n < base {
      OneDigit(base, n);
    } else {
      DivMod(base, n);
      DigitsValue(base, n / base);
      MoreDigits(base, Digits(base, n / base), n % base);
    }
  }

  lemma DivMod(base: nat, n: nat)
    requires base >= 2 && n >= base
    ensures n == base * (n / base) + n % base && 0 <= n / base < n && 0 <= n % base < base
  {
  }

  lemma OneDigit(base: nat, d: nat)
    requires d < base <= 16
    ensures var s := [DigitByte(d)]; Value(base, s) == d && ChunkDigits(s) && (base <= 10 ==> DecimalValue(s))
  {
    DigitByteValue(d);
    hide Unhex, DigitByte, IsNum;
    assert [DigitByte(d)][..0] == [];
  }

  lemma MoreDigits(base: nat, init: seq<byte>, d: nat)
    requires d < base <= 16 && ChunkDigits(init)
    ensures var s := init + [DigitByte(d)];
            && Value(base, s) == base * Value(base, init) + d && ChunkDigits(s)
            && (base <= 10 && DecimalValue(init) ==> DecimalValue(s))
  {
    hide Unhex, DigitByte, IsNum, Value, ChunkDigits, DecimalValue;
    DigitByteValue(d);
    DigitsSnoc(base, init, DigitByte(d));
  }

  lemma DigitsSnoc(base: nat, init: seq<byte>, last: byte)
    requires ChunkDigits(init) && Unhex(last) != -1
    ensures Value(base, init + [last]) == base * Value(base, init) + Unhex(last) && ChunkDigits(init + [last])
    ensures DecimalValue(init) && IsNum(last) ==> DecimalValue(init + [last])
  {
    hide Unhex, IsNum;
    assert (init + [last])[..|init|] == init;
  }

  function Power16(k: nat): nat { if k == 0 then 1 else 16 * Power16(k - 1) }

  lemma {:induction false} HexLength(n: nat, k: nat)
    requires k > 0 && n < Power16(k)
    ensures |Digits(16, n)| <= k
    decreases k
  {
    if n >= 16 {
      HexLength(n / 16, k - 1);
    }
  }

  // ---- chunked bodies --------------------------------------------------------------

  /** A chunk as a sender writes it. */
  function ChunkOf(data: seq<byte>): Chunk { Chunk(Size(Digits(16, |data|), []), data) }

  lemma ChunkOfGood(data: seq<byte>)
    requires 0 < |data| < UINT32_MAX
    ensures GoodChunk(ChunkOf(data))
  {
    hide Value, Digits, ChunkDigits;
    DigitsValue(16, |data|);
    assert Power16(8) == 0x1_0000_0000;
    HexLength(|data|, 8);
  }

  lemma ChunkOfData(data: seq<byte>)
    ensures ChunkOf(data).data == data
  {
  }

  function ChunksOf(parts: seq<seq<byte>>): seq<Chunk> {
    if parts == [] then [] else ChunksOf(parts[..|parts| - 1]) + [ChunkOf(parts[|parts| - 1])]
  }

  /** The size line of the last chunk. */
  function Zero(): Size { Size([48], []) }

  /** The chunked coding of a list of pieces: hexadecimal sizes, and "0" for the last chunk. */
  function ChunkedCoding(parts: seq<seq<byte>>): seq<byte> { ChunkedText(ChunksOf(parts), Zero(), []) }

  lemma ChunksDataSnoc(ks: seq<Chunk>, k: Chunk)
    ensures ChunksData(ks + [k]) == ChunksData(ks) + k.data
  {
    assert (ks + [k])[..|ks|] == ks;
  }

  lemma GoodSnoc(ks: seq<Chunk>, k: Chunk)
    requires (forall j <- ks :: GoodChunk(j)) && GoodChunk(k)
    ensures forall j <- ks + [k] :: GoodChunk(j)
  {
    hide GoodChunk;
  }

  lemma {:induction false} ChunksOfGood(parts: seq<seq<byte>>)
    requires forall p <- parts :: 0 < |p| < UINT32_MAX
    ensures forall k <- ChunksOf(parts) :: GoodChunk(k)
    ensures ChunksData(ChunksOf(parts)) == Flatten(parts) && |ChunksOf(parts)| == |parts|
    decreases |parts|
  {
    hide GoodChunk, ChunkOf, Flatten, ChunksData;
    if parts == [] {
      NoChunks();
    } else {
      var init, last := parts[..|parts| - 1], parts[|parts| - 1];
      assert parts == init + [last] && last in parts;
      assert forall p <- init :: p in parts;
      ChunksOfGood(init);
      ChunkOfGood(last);
      ChunkOfData(last);
      GoodSnoc(ChunksOf(init), ChunkOf(last));
      ChunksDataSnoc(ChunksOf(init), ChunkOf(last));
      FlattenSnoc(init, last);
    }
  }

  lemma NoChunks()
    ensures ChunksData([]) == [] && Flatten<byte>([]) == []
  {
  }

  /**
    Chunked round trip: from the end of the headers, the coding of any list of non-empty pieces yields
    their concatenation as body, and one message_complete, on its last byte.
   */
  lemma ChunkedRoundTrip(hc: Fields -> int, c: Conf, parts: seq<seq<byte>>)
    requires c.run.Going? && c.f.state.ChunkSizeStart? && c.f.nread == 0
    requires c.log != [] && c.log[|c.log| - 1] == Notice(HeadersComplete)
    requires forall p <- parts :: 0 < |p| < UINT32_MAX
    ensures var s := ChunkedCoding(parts);
            var d, e := Feed(hc, c, s), Feed(hc, c, s[..|s| - 1]);
            && d.log == c.log + (if parts == [] then [] else [Body(Flatten(parts))]) + [Notice(MessageComplete)]
            && e.log == c.log + (if parts == [] then [] else [Body(Flatten(parts))])
            && Over(d.f) && SameMessage(c.f, d.f) && d.run.Going? && d.used == c.used + |s|
  {
    hide Feed, OnByte, ChunkedText, ChunksOf, ChunksData, ChunkedEvents, Flatten, GoodChunk, GoodSize, Zero, Over,
      SameMessage;
    var ks := ChunksOf(parts);
    var body, end := if parts == [] then [] else [Body(Flatten(parts))], [Notice(MessageComplete)];
    ChunksOfGood(parts);
    ZeroGood();
    NoTrailers(ks);
    ChunkedBody(hc, c, ks, Zero(), []);
    Regrouped(c.log, body, end);
    LastByte(hc, c, ks);
  }

  lemma NoTrailers(ks: seq<Chunk>)
    ensures ChunkedEvents(ks, []) == (if ks == [] then [] else [Body(ChunksData(ks))]) + [Notice(MessageComplete)]
    ensures |ChunkedText(ks, Zero(), [])| > 0 && Lines([]) == []
  {
  }

  lemma ZeroGood()
    ensures GoodSize(Zero(), 0)
  {
    assert Digits(16, 0) == [48];
    DigitsValue(16, 0);
  }

  /** Before its last byte a chunked message is not complete, but its body is. */
  lemma LastByte(hc: Fields -> int, c: Conf, ks: seq<Chunk>)
    requires c.run.Going? && c.f.state.ChunkSizeStart? && c.f.nread == 0
    requires Closed(c.log, KBody)
    requires (forall k <- ks :: GoodChunk(k)) && GoodSize(Zero(), 0)
    ensures var s := ChunkedText(ks, Zero(), []);
            Feed(hc, c, s[..|s| - 1]).log == c.log + if ks == [] then [] else [Body(ChunksData(ks))]
  {
    hide Feed, OnByte, ChunksText, GoodChunk, GoodSize, SizeLine, Zero;
    var a, b := ChunksText(ks), SizeLine(Zero());
    var s := ChunkedText(ks, Zero(), []);
    assert s == a + b + ([] + [13, 10]);
    assert s[..|s| - 1] == a + b + [13];
    FeedConcat(hc, c, a + b, [13]);
    FeedConcat(hc, c, a, b);
    ChunksRun(hc, c, ks);
    SizeLineRun(hc, Feed(hc, c, a), Zero(), 0);
    var d := Feed(hc, c, a + b);
    FeedOne(hc, d, 13);
    EmptyLineFirst(hc, d);
  }

  // ---- the buffered parser ---------------------------------------------------------

  /**
    A pipeline of requests, cut into buffers in any way: the parser makes exactly the callbacks of the
    requests, in order, consumes every byte and is ready for the next request.
   */
  method ParsePipeline(parser: HttpParser, parts: seq<seq<byte>>, ghost rs: seq<Request>)
    requires parser.Valid() && parser.f.errno.OK? && Ready(parser.f) && Accepting(parser.hc)
    requires GoodPipeline(rs, parser.f.nread) && Flatten(parts) == PipelineText(rs) && [] !in parts
    modifies parser
    ensures Merged(parser.log) == old(Merged(parser.log)) + PipelineEvents(rs)
    ensures parser.Valid() && parser.f.errno.OK?
    ensures if rs != [] && Last(rs[|rs| - 1]) then parser.f.state.Dead? else Ready(parser.f)
  {
    hide Feed, OnByte, Merged, PushAll, GoodPipeline, PipelineText, PipelineEvents;
    PipelineRun(parser.hc, parser.Now(), rs);
    var used;
    ghost var lost;
    used, lost := ExecuteAll(parser, parts);
    PushAllNothing(Merged(parser.log));
    assert used == |PipelineText(rs)|;
  }
}
