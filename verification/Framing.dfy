/**
  The length-prefixed packet protocol: the encoder of msg_pack.c and the incremental parser of
  msgpraser.c, which reads a DataQueue through its exposed segments.  Multi-byte header fields are
  little-endian, as on the hosts the library is built for.
 */
module Framing {
  import opened Common
  import opened DataQueue

  const HEAD_SIZE := 8
  const SOCKET_VER: byte := 0x66
  const SOCKET_PACKET := 32 * 1024 - HEAD_SIZE - 2 * 4
  const MAX_PAYLOAD := SOCKET_PACKET - HEAD_SIZE

  /** CMD_Head */
  datatype Head = Head(version: byte, check: byte, size: u16, main: u16, sub: u16)

  datatype Message = Message(main: u16, sub: u16, payload: seq<byte>)

  function Word(x: u16): (s: seq<byte>)
    ensures |s| == 2
  {
    [x % 256, x / 256]
  }

  function WordAt(s: seq<byte>, i: nat): u16
    requires i + 1 < |s|
  {
    var lo: int, hi: int := s[i], s[i + 1];
    lo + 256 * hi
  }

  function HeadBytes(h: Head): (s: seq<byte>)
    ensures |s| == HEAD_SIZE
  {
    [h.version, h.check] + Word(h.size) + Word(h.main) + Word(h.sub)
  }

  function HeadOf(s: seq<byte>): Head
    requires |s| >= HEAD_SIZE
  {
    Head(s[0], s[1], WordAt(s, 2), WordAt(s, 4), WordAt(s, 6))
  }

  lemma HeadRoundTrip(h: Head, rest: seq<byte>)
    ensures HeadOf(HeadBytes(h) + rest) == h
  {
  }

  lemma HeadBytesOfHead(s: seq<byte>)
    requires |s| == HEAD_SIZE
    ensures HeadBytes(HeadOf(s)) == s
  {
  }

  // ---- what the byte stream means --------------------------------------------------

  /** The bytes make_msg_packet returns; the size field is truncated to 16 bits. */
  function Packet(m: Message): seq<byte> {
    HeadBytes(Head(SOCKET_VER, 0, (HEAD_SIZE + |m.payload|) % 0x1_0000, m.main, m.sub)) + m.payload
  }

  function Packets(ms: seq<Message>): seq<byte> {
    if ms == [] then [] else Packet(ms[0]) + Packets(ms[1..])
  }

  /** Whether the bytes that a kept head announces are all there. */
  predicate Complete(h: Head, s: seq<byte>) { h.size <= |s| + HEAD_SIZE }

  function BodySize(h: Head): nat { Max(h.size - HEAD_SIZE, 0) }

  /** The outcome of looking for one packet: more bytes needed, a protocol error, or a packet. */
  datatype Found =
    | Wait(head: Option<Head>, rest: seq<byte>)
    | Bad(head: Option<Head>, rest: seq<byte>)
    | Whole(h: Head, body: seq<byte>, rest: seq<byte>)

  function AfterHead(h: Head, s: seq<byte>): Found {
    if h.size > SOCKET_PACKET then Bad(Some(h), s)
    else if !Complete(h, s) then Wait(Some(h), s)
    else Whole(h, s[..BodySize(h)], s[BodySize(h)..])
  }

  function FirstPacket(head: Option<Head>, s: seq<byte>): (found: Found)
    ensures found.Whole? ==>
              && found.h.size <= SOCKET_PACKET && |found.body| == BodySize(found.h)
              && |found.rest| + |found.body| + HEAD_SIZE == |s| + if head.Some? then HEAD_SIZE else 0
  {
    match head
    case Some(h) => AfterHead(h, s)
    case None =>
      if |s| < HEAD_SIZE then Wait(None, s)
      else if HeadOf(s).version != SOCKET_VER then Bad(None, s[HEAD_SIZE..])
      else AfterHead(HeadOf(s), s[HEAD_SIZE..])
  }

  /** What a parse leaves: the messages called back, a head kept for later, the unread bytes. */
  datatype Parsed = Parsed(messages: seq<Message>, head: Option<Head>, rest: seq<byte>, ok: bool)

  function Prepend(ms: seq<Message>, p: Parsed): Parsed { p.(messages := ms + p.messages) }

  /** The meaning of the bytes `s` that follow a head already read, for a callback returning `accept`. */
  function Parse(head: Option<Head>, s: seq<byte>, accept: Message -> bool): Parsed
    decreases |s| + if head.Some? then HEAD_SIZE else 0
  {
    match FirstPacket(head, s)
    case Wait(kept, rest) => Parsed([], kept, rest, true)
    case Bad(kept, rest) => Parsed([], kept, rest, false)
    case Whole(h, body, rest) =>
      if h.size < HEAD_SIZE then Parsed([], None, rest, false)
      else
        var m := Message(h.main, h.sub, body);
        if !accept(m) then Parsed([m], None, rest, false)
        else Prepend([m], Parse(None, rest, accept))
  }

  /** Between arrivals a head is kept only while its packet is incomplete. */
  predicate Waiting(head: Option<Head>) { head.Some? ==> HEAD_SIZE < head.value.size <= SOCKET_PACKET }

  lemma ParseNothing(head: Option<Head>, accept: Message -> bool)
    requires Waiting(head)
    ensures Parse(head, [], accept) == Parsed([], head, [], true)
  {
  }

  /** A 32-bit counter after `n` increments. */
  function Counted(x: u32, n: nat): u32 { (x + n) % 0x1_0000_0000 }

  lemma CountOne(x: u32, n: nat)
    ensures Counted(Counted(x, n), 1) == Counted(x, n + 1)
    ensures Counted(x, 0) == x
  {
  }

  lemma SessionStart(accept: Message -> bool)
    ensures Parse(None, [], accept) == Parsed([], None, [], true) && Counted(0, 0) == 0
    ensures Flatten<byte>([]) == []
  {
    ParseNothing(None, accept);
  }

  lemma CountMany(x: u32, n: nat, m: nat)
    ensures Counted(Counted(x, n), m) == Counted(x, n + m)
  {
  }

  lemma FirstPacketAppend(head: Option<Head>, a: seq<byte>, b: seq<byte>)
    ensures match FirstPacket(head, a)
            case Wait(kept, rest) => FirstPacket(head, a + b) == FirstPacket(kept, rest + b)
            case Bad(kept, rest) => FirstPacket(head, a + b) == Bad(kept, rest + b)
            case Whole(h, body, rest) => FirstPacket(head, a + b) == Whole(h, body, rest + b)
  {
    if head.None? && |a| >= HEAD_SIZE {
      assert HeadOf(a + b) == HeadOf(a);
      assert (a + b)[HEAD_SIZE..] == a[HEAD_SIZE..] + b;
      AfterHeadAppend(HeadOf(a), a[HEAD_SIZE..], b);
    } else if head.Some? {
      AfterHeadAppend(head.value, a, b);
    }
  }

  lemma AfterHeadAppend(h: Head, a: seq<byte>, b: seq<byte>)
    ensures match AfterHead(h, a)
            case Wait(kept, rest) => AfterHead(h, a + b) == FirstPacket(kept, rest + b)
            case Bad(kept, rest) => AfterHead(h, a + b) == Bad(kept, rest + b)
            case Whole(_, body, rest) => AfterHead(h, a + b) == Whole(h, body, rest + b)
  {
    if h.size <= SOCKET_PACKET && Complete(h, a) {
      assert (a + b)[..BodySize(h)] == a[..BodySize(h)];
      assert (a + b)[BodySize(h)..] == a[BodySize(h)..] + b;
    }
  }

  /** Cutting the stream anywhere changes nothing: parsing `a`, and later what it left with `b`. */
  lemma {:induction false} ParseAppend(head: Option<Head>, a: seq<byte>, b: seq<byte>, accept: Message -> bool)
    ensures var p := Parse(head, a, accept);
            Parse(head, a + b, accept)
            == if p.ok then Prepend(p.messages, Parse(p.head, p.rest + b, accept))
               else p.(rest := p.rest + b)
    decreases |a| + if head.Some? then HEAD_SIZE else 0
  {
    FirstPacketAppend(head, a, b);
    match FirstPacket(head, a)
    case Wait(kept, rest) =>
      assert Prepend([], Parse(kept, rest + b, accept)) == Parse(kept, rest + b, accept);
    case Bad(_, _) =>
    case Whole(h, body, rest) =>
      if h.size >= HEAD_SIZE {
        var m := Message(h.main, h.sub, body);
        if accept(m) {
          ParseAppend(None, rest, b, accept);
          var q := Parse(None, rest, accept);
          if q.ok {
            PrependTwice([m], q.messages, Parse(q.head, q.rest + b, accept));
          }
        }
      }
  }

  lemma PrependTwice(a: seq<Message>, b: seq<Message>, p: Parsed)
    ensures Prepend(a, Prepend(b, p)) == Prepend(a + b, p)
  {
    assert a + (b + p.messages) == (a + b) + p.messages;
  }

  lemma PrependParsed(ms: seq<Message>, p: Parsed)
    ensures Prepend(ms, p) == Parsed(ms + p.messages, p.head, p.rest, p.ok)
    ensures ms == [] ==> Prepend(ms, p) == p
  {
  }

  /** What the encoder's static buffer can hold. */
  predicate Encodable(m: Message) { |m.payload| <= SOCKET_PACKET }

  lemma PacketFirst(m: Message, rest: seq<byte>)
    requires Encodable(m)
    ensures var h := Head(SOCKET_VER, 0, HEAD_SIZE + |m.payload|, m.main, m.sub);
            FirstPacket(None, Packet(m) + rest)
            == if |m.payload| <= MAX_PAYLOAD then Whole(h, m.payload, rest) else Bad(Some(h), m.payload + rest)
  {
    var h := Head(SOCKET_VER, 0, HEAD_SIZE + |m.payload|, m.main, m.sub);
    var s := m.payload + rest;
    assert Packet(m) + rest == HeadBytes(h) + s;
    HeadRoundTrip(h, s);
    assert (HeadBytes(h) + s)[HEAD_SIZE..] == s;
    assert s[..|m.payload|] == m.payload && s[|m.payload|..] == rest;
  }

  /** The number of leading messages that the parser takes. */
  function Fitting(ms: seq<Message>): seq<Message> {
    if ms == [] || |ms[0].payload| > MAX_PAYLOAD then [] else [ms[0]] + Fitting(ms[1..])
  }

  /**
    Encoding a list of messages and parsing the stream calls back the messages up to the first one
    whose payload exceeds 32744 bytes; the encoder builds such a packet, but the parser refuses it.
   */
  lemma {:induction false} RoundTrip(ms: seq<Message>, accept: Message -> bool)
    requires forall m <- ms :: Encodable(m) && accept(m)
    ensures Parse(None, Packets(ms), accept).messages == Fitting(ms)
    ensures Parse(None, Packets(ms), accept).ok <==> forall m <- ms :: |m.payload| <= MAX_PAYLOAD
    ensures Parse(None, Packets(ms), accept).ok ==> Parse(None, Packets(ms), accept) == Parsed(ms, None, [], true)
  {
    if ms != [] {
      PacketFirst(ms[0], Packets(ms[1..]));
      RoundTrip(ms[1..], accept);
      assert ms == [ms[0]] + ms[1..];
      assert Message(ms[0].main, ms[0].sub, ms[0].payload) == ms[0];
    }
  }

  lemma WrittenNone(b: seq<byte>, at: nat, s: seq<byte>)
    requires at <= |b|
    ensures Written(b, at, s[..0]) == b
  {
  }

  /** Two adjacent copies are one. */
  lemma WrittenTwice(b: seq<byte>, at: nat, s: seq<byte>, n: nat, m: nat)
    requires n + m <= |s| && at + n + m <= |b|
    ensures Written(Written(b, at, s[..n]), at + n, s[n..][..m]) == Written(b, at, s[..n + m])
    ensures s[n..][m..] == s[n + m..]
  {
  }

  /** The callback's arguments, read out of a packet in the receive buffer. */
  function MessageIn(packet: seq<byte>, ghost h: Head, ghost body: seq<byte>): (m: Message)
    requires packet == HeadBytes(h) + body
    ensures m == Message(h.main, h.sub, body)
  {
    HeadRoundTrip(h, body);
    Message(HeadOf(packet).main, HeadOf(packet).sub, packet[HEAD_SIZE..])
  }

  /** Whatever has arrived so far, the parser has called back a prefix of what was sent, and never fails. */
  lemma PrefixDelivered(ms: seq<Message>, arrived: seq<byte>, missing: seq<byte>, accept: Message -> bool)
    requires forall m <- ms :: |m.payload| <= MAX_PAYLOAD && accept(m)
    requires arrived + missing == Packets(ms)
    ensures Parse(None, arrived, accept).ok && Parse(None, arrived, accept).messages <= ms
    ensures missing == [] ==> Parse(None, arrived, accept) == Parsed(ms, None, [], true)
  {
    RoundTrip(ms, accept);
    ParseAppend(None, arrived, missing, accept);
    if missing == [] {
      assert arrived + missing == arrived;
    }
  }

  /** What make_msg_packet writes: with a null pointer the head alone, whatever size it announces. */
  function PacketWritten(main: u16, sub: u16, pData: Option<seq<byte>>, dataSize: u16): seq<byte> {
    HeadBytes(Head(SOCKET_VER, 0, (HEAD_SIZE + dataSize) % 0x1_0000, main, sub))
    + if pData.Some? then pData.value else []
  }

  /**
    make_msg_packet.  The packet is built in a static buffer, the first SOCKET_PACKET + HEAD_SIZE bytes of
    `memory`; there is no test that it fits, and a longer payload is written over what lies behind.
   */
  method MakeMsgPacket(memory: array<byte>, main: u16, sub: u16, pData: Option<seq<byte>>, dataSize: u16)
    returns (size: u16)
    requires pData.Some? ==> |pData.value| == dataSize
    requires memory.Length >= HEAD_SIZE + 0x1_0000
    modifies memory
    ensures size == (HEAD_SIZE + dataSize) % 0x1_0000
    ensures var w := PacketWritten(main, sub, pData, dataSize);
            memory[..|w|] == w && memory[|w|..] == old(memory[|w|..])
    ensures pData.Some? ==> PacketWritten(main, sub, pData, dataSize) == Packet(Message(main, sub, pData.value))
    ensures dataSize <= SOCKET_PACKET ==>
              memory[SOCKET_PACKET + HEAD_SIZE..] == old(memory[SOCKET_PACKET + HEAD_SIZE..])
  {
    size := (HEAD_SIZE + dataSize) % 0x1_0000;
    var head := HeadBytes(Head(SOCKET_VER, 0, size, main, sub));
    forall k | 0 <= k < HEAD_SIZE {
      memory[k] := head[k];
    }
    assert memory[..HEAD_SIZE] == head;
    if pData.Some? && dataSize > 0 {
      forall k | 0 <= k < dataSize {
        memory[HEAD_SIZE + k] := pData.value[k];
      }
      assert memory[..HEAD_SIZE] == head;
      assert memory[HEAD_SIZE..HEAD_SIZE + dataSize] == pData.value;
    }
  }

  // ---- the parser ------------------------------------------------------------------

  class MsgParser {
    var recvPacketCount: u32
    var stCmdHead: Head
    var isHeadGotten: bool
    var pos: nat
    ghost var delivered: seq<Message>  // the callbacks made so far, oldest first

    ghost function Kept(): Option<Head>
      reads this
    {
      if isHeadGotten then Some(stCmdHead) else None
    }

    ghost predicate Valid()
      reads this
    {
      Waiting(Kept()) && (isHeadGotten ==> pos == HEAD_SIZE)
    }

    /** A zeroed msgparser_t */
    constructor ()
      ensures Valid() && recvPacketCount == 0 && Kept() == None && delivered == []
    {
      recvPacketCount := 0;
      stCmdHead := Head(0, 0, 0, 0, 0);
      isHeadGotten := false;
      pos := 0;
      delivered := [];
    }

    /** One turn of the copy loops of _command: move one exposed segment, or what is still needed of it. */
    method CopySegment(q: Queue, buf: array<byte>, upto: nat, ghost s: seq<byte>, ghost b: seq<byte>)
      returns (ghost size: nat)
      requires q.Valid() && q.buffer != buf && s == q.Contents() && b == buf[..]
      requires pos < upto <= buf.Length && upto - pos <= |s|
      modifies `pos, q, buf
      ensures q.Valid() && q.buffer == old(q.buffer)
      ensures 0 < size <= upto - old(pos) && pos == old(pos) + size
      ensures q.Contents() == s[size..]
      ensures buf[..] == Written(b, old(pos), s[..size])
    {
      hide Queue.Valid, Queue.Contents, Turn, DistillPos, CollidedShape;
      var start, len := q.NextData();
      var n := Min(len, upto - pos);
      assert q.buffer[start..start + n] == s[..n] by {
        assert q.buffer[start..start + n] == q.buffer[start..start + len][..n];
      }
      Queue.Copy(buf, pos, q.buffer, start, n);
      pos := pos + n;
      q.Distill(n);
      size := n;
    }

    /** The copy loops of _command: fill the receive buffer up to `upto`. */
    method Fill(q: Queue, buf: array<byte>, upto: nat, ghost s: seq<byte>, ghost b: seq<byte>)
      requires q.Valid() && q.buffer != buf && s == q.Contents() && b == buf[..]
      requires pos <= upto <= buf.Length && upto - pos <= |s|
      modifies `pos, q, buf
      ensures q.Valid() && q.buffer == old(q.buffer) && pos == upto
      ensures q.Contents() == s[upto - old(pos)..]
      ensures buf[..] == Written(b, old(pos), s[..upto - old(pos)])
    {
      hide *;
      ghost var from, done, left, now := pos, 0, s, b;
      WrittenNone(b, pos, s);
      while pos < upto
        invariant from <= pos == from + done <= upto && done <= |s| && q.Valid() && q.buffer == old(q.buffer)
        invariant q.Contents() == left == s[done..]
        invariant buf[..] == now == Written(b, from, s[..done])
      {
        ghost var size := CopySegment(q, buf, upto, left, now);
        WrittenTwice(b, from, s, done, size);
        done, left, now := done + size, q.Contents(), buf[..];
      }
    }

    /**
      _command: one packet, if it is all there.  The packet is left in the receive buffer, which is
      shared by all parsers, so nothing is assumed of what it holds at the call.
     */
    method Command(q: Queue, buf: array<byte>) returns (ok: bool, packetSize: Option<u16>)
      requires q.Valid() && Valid() && q.buffer != buf && buf.Length == SOCKET_PACKET + HEAD_SIZE
      modifies this, q, buf
      ensures q.Valid() && q.buffer == old(q.buffer)
      ensures recvPacketCount == old(recvPacketCount) && delivered == old(delivered)
      ensures var found := FirstPacket(old(Kept()), old(q.Contents()));
              && q.Contents() == found.rest
              && ok == !found.Bad?
              && (packetSize.Some? <==> found.Whole?)
              && (ok ==> Valid())
              && Kept() == (if found.Whole? then None else found.head)
              && (found.Whole? ==> packetSize == Some(found.h.size)
                                   && buf[..HEAD_SIZE + BodySize(found.h)] == HeadBytes(found.h) + found.body)
    {
      hide Queue.Valid, Queue.Contents;
      ghost var s := q.Contents();
      packetSize := None;
      if !isHeadGotten {
        if q.dataSize < HEAD_SIZE {
          return true, None;
        }
        pos := 0;
        ReadHead(q, buf, s);
        if stCmdHead.version != SOCKET_VER {
          return false, None;
        }
        isHeadGotten := true;
      }
      ghost var rest := q.Contents();
      assert FirstPacket(old(Kept()), s) == AfterHead(stCmdHead, rest);
      if stCmdHead.size > SOCKET_PACKET {
        return false, None;
      }
      if q.dataSize + HEAD_SIZE < stCmdHead.size {
        return true, None;
      }
      ReadBody(q, buf, rest);
      packetSize := Some(stCmdHead.size);
      isHeadGotten := false;
      ok := true;
    }

    /** The part of _command that reads a head through the receive buffer. */
    method ReadHead(q: Queue, buf: array<byte>, ghost s: seq<byte>)
      requires q.Valid() && q.buffer != buf && buf.Length == SOCKET_PACKET + HEAD_SIZE
      requires pos == 0 && s == q.Contents() && |s| >= HEAD_SIZE
      modifies `pos, `stCmdHead, q, buf
      ensures q.Valid() && q.buffer == old(q.buffer)
      ensures pos == HEAD_SIZE && stCmdHead == HeadOf(s) && q.Contents() == s[HEAD_SIZE..]
    {
      hide Queue.Valid, Queue.Contents;
      Fill(q, buf, HEAD_SIZE, s, buf[..]);
      assert buf[..HEAD_SIZE] == s[..HEAD_SIZE];
      stCmdHead := HeadOf(buf[..HEAD_SIZE]);
    }

    /** The part of _command that puts the packet together in the receive buffer. */
    method ReadBody(q: Queue, buf: array<byte>, ghost s: seq<byte>)
      requires q.Valid() && q.buffer != buf && buf.Length == SOCKET_PACKET + HEAD_SIZE
      requires pos == HEAD_SIZE && s == q.Contents() && Complete(stCmdHead, s) && stCmdHead.size <= SOCKET_PACKET
      modifies `pos, q, buf
      ensures q.Valid() && q.buffer == old(q.buffer)
      ensures q.Contents() == s[BodySize(stCmdHead)..]
      ensures buf[..HEAD_SIZE + BodySize(stCmdHead)] == HeadBytes(stCmdHead) + s[..BodySize(stCmdHead)]
    {
      hide Queue.Valid, Queue.Contents;
      PutHead(buf);
      if pos < stCmdHead.size {
        Fill(q, buf, stCmdHead.size, s, buf[..]);
      }
    }

    /** memcpy of the kept head to the front of the receive buffer */
    method PutHead(buf: array<byte>)
      requires buf.Length >= HEAD_SIZE
      modifies buf
      ensures buf[..HEAD_SIZE] == HeadBytes(stCmdHead)
    {
      var bytes := HeadBytes(stCmdHead);
      forall k | 0 <= k < HEAD_SIZE {
        buf[k] := bytes[k];
      }
    }

    /**
      The body of msgparser_parser's loop: one packet and its callback.  `more` says that the loop goes
      on, `ms` is what was called back.
     */
    method Serve(q: Queue, buf: array<byte>, accept: Message -> bool)
      returns (ok: bool, more: bool, ghost ms: seq<Message>)
      requires q.Valid() && Valid() && q.buffer != buf && buf.Length == SOCKET_PACKET + HEAD_SIZE
      modifies this, q, buf
      ensures q.Valid() && q.buffer == old(q.buffer) && (ok ==> Valid()) && (more ==> ok)
      ensures delivered == old(delivered) + ms && recvPacketCount == Counted(old(recvPacketCount), |ms|)
      ensures var parsed := Parse(old(Kept()), old(q.Contents()), accept);
              if more then parsed == Prepend(ms, Parse(Kept(), q.Contents(), accept))
              else parsed == Parsed(ms, Kept(), q.Contents(), ok)
      ensures more ==> Kept() == None && q.dataSize < old(q.dataSize) + if old(isHeadGotten) then HEAD_SIZE else 0
    {
      hide Queue.Valid, Queue.Contents, FirstPacket, Counted, HeadBytes, HeadOf, AfterHead;
      ghost var found := FirstPacket(Kept(), q.Contents());
      CountOne(recvPacketCount, 0);
      more, ms := false, [];
      var packetSize;
      ok, packetSize := Command(q, buf);
      if ok && packetSize.Some? {
        var size := packetSize.value;
        if size < HEAD_SIZE {
          ok := false;
        } else {
          var m := MessageIn(buf[..size], found.h, found.body);
          ms := [m];
          recvPacketCount := Counted(recvPacketCount, 1);
          delivered := delivered + [m];
          ok := accept(m);
          more := ok;
        }
      }
    }

    /** msgparser_parser */
    method Parser(q: Queue, buf: array<byte>, accept: Message -> bool) returns (ok: bool)
      requires q.Valid() && Valid() && q.buffer != buf && buf.Length == SOCKET_PACKET + HEAD_SIZE
      modifies this, q, buf
      ensures q.Valid() && q.buffer == old(q.buffer)
      ensures var parsed := Parse(old(Kept()), old(q.Contents()), accept);
              && ok == parsed.ok
              && delivered == old(delivered) + parsed.messages
              && recvPacketCount == Counted(old(recvPacketCount), |parsed.messages|)
              && Kept() == parsed.head
              && q.Contents() == parsed.rest
              && (ok ==> Valid())
    {
      hide Queue.Valid, Queue.Contents, FirstPacket, Counted, Parse, Prepend, Waiting;
      ghost var parsed := Parse(Kept(), q.Contents(), accept);
      ghost var log, count, ms: seq<Message> := delivered, recvPacketCount, [];
      CountOne(count, 0);
      PrependParsed([], parsed);
      ok := true;
      while 0 < q.dataSize
        invariant q.Valid() && Valid() && q.buffer == old(q.buffer) && ok
        invariant delivered == log + ms && recvPacketCount == Counted(count, |ms|)
        invariant parsed == Prepend(ms, Parse(Kept(), q.Contents(), accept))
        decreases q.dataSize + if isHeadGotten then HEAD_SIZE else 0
      {
        ghost var one;
        var more;
        ok, more, one := Serve(q, buf, accept);
        CountMany(count, |ms|, |one|);
        Regrouped(log, ms, one);
        if !more {
          PrependParsed(ms, Parsed(one, Kept(), q.Contents(), ok));
          return;
        }
        PrependTwice(ms, one, Parse(Kept(), q.Contents(), accept));
        ms := ms + one;
      }
      ParseNothing(Kept(), accept);
      PrependParsed(ms, Parsed([], Kept(), [], true));
      assert q.Contents() == [] && ms + [] == ms;
    }
  }

  /**
    A connection's receiving side: each arrival is put into the queue and the queue is parsed, as the
    channel's read callback and its message handler do.  The run stops at a parse failure, or just
    before an insert that the queue does not survive.
   */
  method Session(arrivals: seq<seq<byte>>, accept: Message -> bool)
    returns (q: Queue, parser: MsgParser, taken: nat, ok: bool)
    ensures taken <= |arrivals| && fresh(q) && fresh(parser)
    ensures var parsed := Parse(None, Flatten(arrivals[..taken]), accept);
            && ok == parsed.ok
            && parser.delivered == parsed.messages
            && parser.recvPacketCount == Counted(0, |parsed.messages|)
    ensures ok && taken < |arrivals| ==> Corrupts(q.Positions(), |arrivals[taken]|)
  {
    hide Queue.Valid, Queue.Contents, FirstPacket, Counted, Corrupts, InsertPos, Parse, Flatten, Waiting,
      Queue.Positions;
    q := new Queue();
    parser := new MsgParser();
    var buf := new byte[SOCKET_PACKET + HEAD_SIZE](_ => 0);
    taken, ok := 0, true;
    ghost var all: seq<byte> := [];
    SessionStart(accept);
    assert arrivals[..0] == [];
    while ok && taken < |arrivals|
      invariant taken <= |arrivals| && all == Flatten(arrivals[..taken])
      invariant fresh(q) && fresh(parser) && fresh(buf) && q.buffer != buf
      invariant q.buffer == null || fresh(q.buffer)
      invariant ok ==> q.Valid() && parser.Valid()
      invariant var parsed := Parse(None, all, accept);
                && ok == parsed.ok && parser.delivered == parsed.messages
                && parser.recvPacketCount == Counted(0, |parsed.messages|)
                && (ok ==> parser.Kept() == parsed.head && q.Contents() == parsed.rest)
    {
      var data := arrivals[taken];
      var corrupts := q.WouldCorrupt(|data|);
      if corrupts {
        break;
      }
      ghost var parsed := Parse(None, all, accept);
      ParseAppend(None, all, data, accept);
      q.Insert(data);
      ok := parser.Parser(q, buf, accept);
      CountMany(0, |parsed.messages|, |Parse(parsed.head, parsed.rest + data, accept).messages|);
      assert arrivals[..taken + 1] == arrivals[..taken] + [data];
      FlattenSnoc(arrivals[..taken], data);
      all := all + data;
      taken := taken + 1;
    }
  }

  // ---- the excluded insert, under this protocol ------------------------------------

  /** What arrives: a packet of 150 bytes, a head that announces a large one, and 150 bytes of that. */
  datatype Arrivals = Arrivals(first: seq<byte>, second: seq<byte>, third: seq<byte>)

  function Segments(m: Message, h: Head, tail: seq<byte>): Arrivals
    requires |m.payload| == 142
  {
    Arrivals(HeadBytes(HeadFor(m)) + m.payload[..92], m.payload[92..] + HeadBytes(h), tail)
  }

  function HeadFor(m: Message): Head
    requires Encodable(m)
  {
    Head(SOCKET_VER, 0, HEAD_SIZE + |m.payload|, m.main, m.sub)
  }

  /** What the parser makes of them: it takes 8 bytes, then 150, then none. */
  lemma SegmentsParsed(m: Message, h: Head, tail: seq<byte>, accept: Message -> bool)
    requires |m.payload| == 142 && |tail| == 150 && accept(m) && h.version == SOCKET_VER
             && 158 < h.size <= SOCKET_PACKET
    ensures var a := Segments(m, h, tail);
            && a.first + a.second + a.third == Packet(m) + HeadBytes(h) + tail
            && |a.first| == 100 && |a.second| == 58 && |a.third| == 150
            && Parse(None, a.first, accept) == Parsed([], Some(HeadFor(m)), m.payload[..92], true)
            && Parse(Some(HeadFor(m)), m.payload[..92] + a.second, accept) == Parsed([m], Some(h), [], true)
            && Parse(Some(h), a.third, accept) == Parsed([], Some(h), a.third, true)
  {
    hide HeadBytes, HeadOf, Word;
    var k := HeadFor(m);
    HeadRoundTrip(k, m.payload[..92]);
    HeadRoundTrip(h, []);
    assert HeadBytes(h) + [] == HeadBytes(h);
    assert (HeadBytes(k) + m.payload[..92])[HEAD_SIZE..] == m.payload[..92];
    var s := m.payload[..92] + (m.payload[92..] + HeadBytes(h));
    assert s == m.payload + HeadBytes(h);
    assert s[..142] == m.payload && s[142..] == HeadBytes(h) && HeadBytes(h)[HEAD_SIZE..] == [];
    assert Parse(None, HeadBytes(h), accept) == Parsed([], Some(h), [], true);
    assert [m] + [] == [m] && Message(k.main, k.sub, m.payload) == m;
  }

  /** The packet arrives in two segments, the second one with the next head behind it. */
  lemma PacketQueued(p: Pos, q: Pos, rest: seq<Op>)
    requires p == Pos(0, 0, 0, 0, 0) && q == Pos(150, 150, 0, 150, 158) && Sound(q) && LegalRun(q, rest)
    ensures Sound(p)
    ensures var ops := [Op.Insert(100)] + ([Op.Distill(8)] + ([Op.Insert(58)] + rest));
            LegalRun(p, ops) && Run(p, ops) == Run(q, rest)
  {
    var p1 := Step(p, Op.Insert(100));
    var p2 := Step(p1, Op.Distill(8));
    var p3 := Step(p2, Op.Insert(58));
    assert p3 == q;
    hide Step, Legal, Sound, LegalRun, Run;
    RunCons(p2, Op.Insert(58), rest);
    RunCons(p1, Op.Distill(8), [Op.Insert(58)] + rest);
    RunCons(p, Op.Insert(100), [Op.Distill(8)] + ([Op.Insert(58)] + rest));
  }

  /** Both are taken out, and what comes next fills the buffer up to where they ended. */
  lemma PacketTaken(p: Pos)
    requires p == Pos(150, 150, 0, 150, 158)
    ensures Sound(p)
    ensures var ops := [Op.Distill(142)] + ([Op.Distill(8)] + ([Op.Insert(150)] + []));
            LegalRun(p, ops) && Run(p, ops) == Pos(150, 150, 150, 150, 158) && Corrupts(Run(p, ops), 8)
  {
    var p4 := Step(p, Op.Distill(142));
    var p5 := Step(p4, Op.Distill(8));
    var p6 := Step(p5, Op.Insert(150));
    assert p6 == Pos(150, 150, 150, 150, 158) && Corrupts(p6, 8);
    hide Step, Legal, Sound, LegalRun, Run, Corrupts;
    RunNothing(p6);
    RunCons(p5, Op.Insert(150), []);
    RunCons(p4, Op.Distill(8), [Op.Insert(150)] + []);
    RunCons(p, Op.Distill(142), [Op.Distill(8)] + ([Op.Insert(150)] + []));
  }

  /**
    The excluded insert is reached by ordinary traffic: with these arrivals put into the queue, and taken
    out of it as the parser takes them, an arrival of 8 bytes comes out of order.
   */
  lemma SessionReachesCollision(empty: Pos)
    requires empty == Pos(0, 0, 0, 0, 0)
    ensures Sound(empty)
    ensures var ops := [Op.Insert(100), Op.Distill(8), Op.Insert(58), Op.Distill(142), Op.Distill(8), Op.Insert(150)];
            && LegalRun(empty, ops)
            && Run(empty, ops) == Pos(150, 150, 150, 150, 158)
            && Corrupts(Run(empty, ops), 8)
  {
    hide Step, Legal, Sound, LegalRun, Run, Corrupts;
    var filled := Pos(150, 150, 0, 150, 158);
    var rest := [Op.Distill(142)] + ([Op.Distill(8)] + ([Op.Insert(150)] + []));
    PacketTaken(filled);
    PacketQueued(empty, filled, rest);
    assert [Op.Insert(100)] + ([Op.Distill(8)] + ([Op.Insert(58)] + rest))
        == [Op.Insert(100), Op.Distill(8), Op.Insert(58), Op.Distill(142), Op.Distill(8), Op.Insert(150)];
  }
}
