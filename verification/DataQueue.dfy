/**
  The growing wrap-around byte queue of dataqueue.c.  The five counters are first
  studied as a value (`Pos`), because the growth bounds and the exact condition under
  which an insert keeps the queue sound only depend on them; the class then shows that
  the bytes themselves behave as a FIFO.
 */
module DataQueue {
  import opened Common

  /** insertPos, terminalPos, queryPos, dataSize and bufferSize of `dataqueue_t`. */
  datatype Pos = Pos(insert: nat, terminal: nat, query: nat, size: nat, capacity: nat)

  // The three shapes, over insertPos, terminalPos, queryPos and dataSize.

  /** One segment [query, terminal). */
  predicate StraightShape(i: nat, t: nat, q: nat, d: nat) { i == t && q <= t && d == t - q }

  /** Two segments: [query, terminal) is read before [0, insert). */
  predicate WrappedShape(i: nat, t: nat, q: nat, d: nat) { i < t && i <= q <= t && d == t - q + i }

  /** The second segment has grown up to the point where the drained first one ended. */
  predicate CollidedShape(i: nat, t: nat, q: nat, d: nat) { i == t == q && d == t && d > 0 }

  predicate Shape(i: nat, t: nat, q: nat, d: nat) {
    StraightShape(i, t, q, d) || WrappedShape(i, t, q, d) || CollidedShape(i, t, q, d)
  }

  predicate Sound(p: Pos) {
    p.terminal <= p.capacity && Shape(p.insert, p.terminal, p.query, p.size)
  }

  /** The condition under which dataqueue_insert_data sets `excp` and reallocates. */
  predicate Grows(p: Pos, n: nat) {
    if p.size + n > p.capacity then true
    else if p.insert == p.terminal && p.insert + n > p.capacity then p.query < n
    else p.insert < p.terminal && p.insert + n > p.query
  }

  /** The condition under which the insert position goes back to the buffer's start. */
  predicate Rewinds(p: Pos, n: nat) {
    !Grows(p, n) && p.insert == p.terminal && p.insert + n > p.capacity
  }

  function NewCapacity(p: Pos, n: nat): nat { p.capacity + Max(p.capacity / 2, n) }

  /** The counters after the reallocation, or after the rewind, and before the bytes are copied. */
  function Room(p: Pos, n: nat): Pos {
    if Grows(p, n) then Pos(p.size, p.size, 0, p.size, NewCapacity(p, n))
    else if Rewinds(p, n) then p.(insert := 0)
    else p
  }

  function InsertPos(p: Pos, n: nat): Pos {
    var q := Room(p, n);
    q.(insert := q.insert + n, size := q.size + n, terminal := Max(q.terminal, q.insert + n))
  }

  /** A reader that finds the first segment drained turns to the second one. */
  function Turn(p: Pos): Pos {
    if p.query == p.terminal then p.(query := 0, terminal := p.insert) else p
  }

  /** How many bytes dataqueue_next_data exposes. */
  function Exposed(p: Pos): int { Turn(p).terminal - Turn(p).query }

  function DistillPos(p: Pos, n: nat): Pos
    requires p.size > 0 ==> n <= p.size
  {
    if p.size == 0 then p
    else var q := Turn(p); q.(size := q.size - n, query := q.query + n)
  }

  /** The one kind of insert after which no reader can see a FIFO any more. */
  predicate Corrupts(p: Pos, n: nat) {
    CollidedShape(p.insert, p.terminal, p.query, p.size) && n > 0 && p.size + n <= p.capacity
  }

  /** The exclusion is exact: an insert leaves one of the three shapes iff it is not `Corrupts`. */
  lemma InsertSoundIff(p: Pos, n: nat)
    requires Sound(p)
    ensures Sound(InsertPos(p, n)) <==> !Corrupts(p, n)
  {
  }

  /** A reader's turn removes the collision, so that any insert is safe after it. */
  lemma TurnRemovesCollision(p: Pos, n: nat)
    requires Sound(p) && p.size > 0
    ensures Sound(Turn(p)) && !Corrupts(Turn(p), n) && 0 < Exposed(p) <= p.size
  {
  }

  // ---- whole runs ------------------------------------------------------------------

  datatype Op = Insert(n: nat) | Next | Distill(n: nat) | Clear

  /** What the four operations demand of their callers. */
  predicate Legal(p: Pos, op: Op) {
    match op
    case Insert(n) => !Corrupts(p, n)
    case Next => p.size > 0
    case Distill(n) => p.size > 0 ==> n <= Exposed(p)
    case Clear => true
  }

  function Step(p: Pos, op: Op): Pos
    requires Sound(p) && Legal(p, op)
  {
    match op
    case Insert(n) => InsertPos(p, n)
    case Next => Turn(p)
    case Distill(n) => DistillPos(p, n)
    case Clear => Pos(0, 0, 0, 0, p.capacity)
  }

  /** Bytes moved by the reallocation of one operation. */
  function CopyCost(p: Pos, op: Op): nat {
    match op
    case Insert(n) => if Grows(p, n) then p.size else 0
    case _ => 0
  }

  lemma StepSound(p: Pos, op: Op)
    requires Sound(p) && Legal(p, op)
    ensures Sound(Step(p, op))
  {
  }

  ghost predicate LegalRun(p: Pos, ops: seq<Op>)
    requires Sound(p)
    decreases ops
  {
    ops == [] || (Legal(p, ops[0]) && Sound(Step(p, ops[0])) && LegalRun(Step(p, ops[0]), ops[1..]))
  }

  ghost function Run(p: Pos, ops: seq<Op>): Pos
    requires Sound(p) && LegalRun(p, ops)
    decreases ops
  {
    if ops == [] then p else Run(Step(p, ops[0]), ops[1..])
  }

  ghost function RunCost(p: Pos, ops: seq<Op>): nat
    requires Sound(p) && LegalRun(p, ops)
    decreases ops
  {
    if ops == [] then 0 else CopyCost(p, ops[0]) + RunCost(Step(p, ops[0]), ops[1..])
  }

  lemma RunNothing(p: Pos)
    requires Sound(p)
    ensures LegalRun(p, []) && Run(p, []) == p
  {
  }

  /** A run, by its first operation. */
  lemma RunCons(p: Pos, op: Op, rest: seq<Op>)
    requires Sound(p) && Legal(p, op) && Sound(Step(p, op)) && LegalRun(Step(p, op), rest)
    ensures LegalRun(p, [op] + rest) && Run(p, [op] + rest) == Run(Step(p, op), rest)
  {
    hide Sound, Legal, Step;
    assert ([op] + rest)[1..] == rest;
  }

  /** Every insert of the run brings at most `most` bytes and leaves at most `held` stored. */
  ghost predicate Paced(p: Pos, ops: seq<Op>, most: nat, held: nat)
    requires Sound(p) && LegalRun(p, ops)
    decreases ops
  {
    ops == []
    || ((ops[0].Insert? ==> ops[0].n <= most && p.size + ops[0].n <= held)
        && Paced(Step(p, ops[0]), ops[1..], most, held))
  }

  /** What the growth bound needs between operations: a wrapped queue wastes less than one insert. */
  predicate Tight(p: Pos, most: nat, held: nat) {
    2 * p.capacity <= 3 * (held + most)
    && (p.insert < p.terminal ==> p.capacity < p.terminal + most)
  }

  lemma StepTight(p: Pos, op: Op, most: nat, held: nat)
    requires Sound(p) && Legal(p, op) && Tight(p, most, held) && most <= held
    requires op.Insert? ==> op.n <= most && p.size + op.n <= held
    ensures Tight(Step(p, op), most, held)
  {
  }

  /** However long the run, the buffer never exceeds one and a half times what the traffic needs. */
  lemma {:induction false} CapacityBound(p: Pos, ops: seq<Op>, most: nat, held: nat)
    requires Sound(p) && LegalRun(p, ops) && Paced(p, ops, most, held)
    requires Tight(p, most, held) && most <= held
    ensures Sound(Run(p, ops)) && Tight(Run(p, ops), most, held)
    ensures 2 * Run(p, ops).capacity <= 3 * (held + most)
    decreases ops
  {
    if ops != [] {
      StepTight(p, ops[0], most, held);
      CapacityBound(Step(p, ops[0]), ops[1..], most, held);
    }
  }

  lemma StepCost(p: Pos, op: Op)
    requires Sound(p) && Legal(p, op)
    ensures CopyCost(p, op) + 3 * p.capacity <= 3 * Step(p, op).capacity
  {
  }

  /** All the bytes a run ever moves by reallocation are at most three times the final capacity. */
  lemma {:induction false} CopyBound(p: Pos, ops: seq<Op>)
    requires Sound(p) && LegalRun(p, ops)
    ensures RunCost(p, ops) + 3 * p.capacity <= 3 * Run(p, ops).capacity
    decreases ops
  {
    if ops != [] {
      StepCost(p, ops[0]);
      CopyBound(Step(p, ops[0]), ops[1..]);
    }
  }

  /**
    The excluded state is reached from the empty queue by ordinary traffic: for every k >= 4, filling
    a buffer, growing it, draining it and filling it again leaves a collision that a one-byte insert
    then corrupts.
   */
  lemma CorruptionReachable(empty: Pos, k: nat)
    requires k >= 4 && empty == Pos(0, 0, 0, 0, 0)
    ensures Sound(empty)
    ensures var ops := [Insert(k), Insert(1), Distill(k + 1), Insert(k + 1)];
            LegalRun(empty, ops) && Corrupts(Run(empty, ops), 1)
  {
    var p1 := Step(empty, Insert(k));
    var p2 := Step(p1, Insert(1));
    var p3 := Step(p2, Distill(k + 1));
    var p4 := Step(p3, Insert(k + 1));
    RunNothing(p4);
    RunCons(p3, Insert(k + 1), []);
    RunCons(p2, Distill(k + 1), [Insert(k + 1)]);
    RunCons(p1, Insert(1), [Distill(k + 1), Insert(k + 1)]);
    RunCons(empty, Insert(k), [Insert(1), Distill(k + 1), Insert(k + 1)]);
    assert [Insert(k)] + [Insert(1), Distill(k + 1), Insert(k + 1)]
           == [Insert(k), Insert(1), Distill(k + 1), Insert(k + 1)];
    assert [Insert(1)] + [Distill(k + 1), Insert(k + 1)] == [Insert(1), Distill(k + 1), Insert(k + 1)];
    assert [Distill(k + 1)] + [Insert(k + 1)] == [Distill(k + 1), Insert(k + 1)];
    assert [Insert(k + 1)] + [] == [Insert(k + 1)];
  }

  /** The queued bytes, oldest first, in a buffer holding `bytes`. */
  function Reading(i: nat, t: nat, q: nat, d: nat, bytes: seq<byte>): (s: seq<byte>)
    requires t <= |bytes| && Shape(i, t, q, d)
    ensures |s| == d
  {
    if d == t - q then bytes[q..t] else bytes[q..t] + bytes[..i]
  }

  function Ordered(p: Pos, bytes: seq<byte>): (s: seq<byte>)
    requires Sound(p) && |bytes| == p.capacity
    ensures |s| == p.size
  {
    Reading(p.insert, p.terminal, p.query, p.size, bytes)
  }

  function Written(bytes: seq<byte>, at: nat, data: seq<byte>): (r: seq<byte>)
    requires at + |data| <= |bytes|
    ensures |r| == |bytes|
  {
    bytes[..at] + data + bytes[at + |data|..]
  }

  lemma InsertFits(p: Pos, n: nat)
    requires Sound(p)
    ensures Room(p, n).insert + n <= Room(p, n).capacity && InsertPos(p, n).terminal <= InsertPos(p, n).capacity
  {
  }

  /** An insert with no reallocation, into a queue of one segment. */
  lemma InsertStraight(p: Pos, bytes: seq<byte>, data: seq<byte>, q: Pos, after: seq<byte>)
    requires Sound(p) && |bytes| == p.capacity && !Grows(p, |data|)
    requires StraightShape(p.insert, p.terminal, p.query, p.size)
    requires q == InsertPos(p, |data|)
    requires after == Written(bytes, Room(p, |data|).insert, data)
    ensures Sound(q) && Ordered(q, after) == Ordered(p, bytes) + data
  {
    if Rewinds(p, |data|) {
      assert after[..|data|] == data && after[p.query..p.terminal] == bytes[p.query..p.terminal];
    } else {
      assert after[p.query..q.terminal] == bytes[p.query..p.terminal] + data;
    }
  }

  /** An insert with no reallocation, into a queue of two segments. */
  lemma InsertWrapped(p: Pos, bytes: seq<byte>, data: seq<byte>, q: Pos, after: seq<byte>)
    requires Sound(p) && |bytes| == p.capacity && !Grows(p, |data|)
    requires WrappedShape(p.insert, p.terminal, p.query, p.size)
    requires q == InsertPos(p, |data|)
    requires after == Written(bytes, Room(p, |data|).insert, data)
    ensures Sound(q) && Ordered(q, after) == Ordered(p, bytes) + data
  {
    var one, two := bytes[p.query..p.terminal], bytes[..p.insert];
    assert after[q.query..q.terminal] == one && after[..q.insert] == two + data;
    assert one + (two + data) == one + two + data;
    assert p.insert == 0 ==> two == [] && one + two == one;
  }

  /**
    What the copy at the insert position does to the reading order, given the memory `room` that
    the reallocation (or nothing) left: the data comes last, unless the insert corrupts, in which
    case it comes first.
   */
  lemma InsertOrdered(p: Pos, bytes: seq<byte>, room: seq<byte>, data: seq<byte>, q: Pos, after: seq<byte>)
    requires Sound(p) && |bytes| == p.capacity && |room| == Room(p, |data|).capacity
    requires if Grows(p, |data|) then room[..p.size] == Ordered(p, bytes) else room == bytes
    requires q == InsertPos(p, |data|) && q.terminal <= q.capacity
    requires after == Written(room, Room(p, |data|).insert, data)
    ensures Sound(q) <==> !Corrupts(p, |data|)
    ensures Sound(q) ==> Ordered(q, after) == Ordered(p, bytes) + data
    ensures Corrupts(p, |data|) ==>
              q.query < q.terminal && after[q.query..q.terminal] == data && after[..q.query] == Ordered(p, bytes)
  {
    InsertSoundIff(p, |data|);
    if Grows(p, |data|) {
    } else if StraightShape(p.insert, p.terminal, p.query, p.size) {
      InsertStraight(p, bytes, data, q, after);
    } else if WrappedShape(p.insert, p.terminal, p.query, p.size) {
      InsertWrapped(p, bytes, data, q, after);
    }
  }

  // ---- the queue itself ------------------------------------------------------------

  class Queue {
    var insertPos: nat
    var terminalPos: nat
    var queryPos: nat
    var dataSize: nat
    var bufferSize: nat
    var buffer: array?<byte>
    ghost var copied: nat  // bytes moved by reallocations so far

    ghost function Positions(): Pos
      reads this
    {
      Pos(insertPos, terminalPos, queryPos, dataSize, bufferSize)
    }

    ghost predicate Valid()
      reads this
    {
      && terminalPos <= bufferSize
      && Shape(insertPos, terminalPos, queryPos, dataSize)
      && bufferSize == if buffer == null then 0 else buffer.Length
    }

    ghost function Memory(): seq<byte>
      reads this, buffer
    {
      if buffer == null then [] else buffer[..]
    }

    /** The queued bytes, oldest first. */
    ghost function Contents(): (s: seq<byte>)
      requires Valid()
      reads this, buffer
      ensures |s| == dataSize
    {
      Reading(insertPos, terminalPos, queryPos, dataSize, Memory())
    }

    constructor ()
      ensures insertPos == terminalPos == queryPos == dataSize == bufferSize == copied == 0
      ensures buffer == null
      ensures Valid()
      ensures Contents() == []
    {
      insertPos, terminalPos, queryPos, dataSize, bufferSize := 0, 0, 0, 0, 0;
      buffer := null;
      copied := 0;
    }

    /** dataqueue_remove_data */
    method Remove(freeMemory: bool)
      requires Valid()
      modifies this
      ensures copied == old(copied)
      ensures insertPos == terminalPos == queryPos == dataSize == 0
      ensures if freeMemory then bufferSize == 0 && buffer == null
              else bufferSize == old(bufferSize) && buffer == old(buffer)
      ensures Valid()
      ensures Contents() == []
    {
      dataSize := 0;
      insertPos := 0;
      terminalPos := 0;
      queryPos := 0;
      if freeMemory {
        bufferSize := 0;
        buffer := null;
      }
    }

    /** memcpy between two buffers */
    static method Copy(to: array<byte>, at: nat, from: array<byte>, start: nat, n: nat)
      requires to != from && at + n <= to.Length && start + n <= from.Length
      modifies to
      ensures to[..] == Written(old(to[..]), at, from[start..start + n])
    {
      forall k | 0 <= k < n {
        to[at + k] := from[start + k];
      }
    }

    /** The two memcpy calls of the reallocation: both segments move to the front of `to`. */
    method Linearize(to: array<byte>)
      requires Valid() && to != buffer && dataSize <= to.Length
      modifies to, `copied
      ensures copied == old(copied) + dataSize
      ensures to[..dataSize] == old(Contents())
    {
      var partOne := terminalPos - queryPos;
      if buffer != null {
        if partOne > 0 {
          Copy(to, 0, buffer, queryPos, partOne);
          copied := copied + partOne;
        }
        assert to[..partOne] == buffer[queryPos..terminalPos];
        if dataSize > partOne {
          ghost var one := to[..partOne];
          Copy(to, partOne, buffer, 0, insertPos);
          copied := copied + insertPos;
          assert to[..dataSize] == one + buffer[..insertPos];
        }
      }
    }

    /** The reallocation inside dataqueue_insert_data. */
    method Grow(n: nat)
      requires Valid()
      modifies this
      ensures copied == old(copied) + old(dataSize)
      ensures buffer != null && fresh(buffer) && buffer.Length == bufferSize
      ensures bufferSize == old(bufferSize) + Max(old(bufferSize) / 2, n)
      ensures insertPos == terminalPos == dataSize == old(dataSize) && queryPos == 0
      ensures dataSize <= bufferSize && buffer[..dataSize] == old(Contents())
    {
      var newSize := bufferSize + Max(bufferSize / 2, n);
      var newBuffer := new byte[newSize](_ => 0);
      Linearize(newBuffer);
      queryPos := 0;
      insertPos := dataSize;
      terminalPos := dataSize;
      bufferSize := newSize;
      buffer := newBuffer;
    }

    /** The first part of dataqueue_insert_data: find `n` free bytes, reallocating if need be. */
    method MakeRoom(n: nat)
      requires Valid()
      modifies this
      ensures copied == old(copied) + CopyCost(old(Positions()), Op.Insert(n))
      ensures Positions() == Room(old(Positions()), n)
      ensures bufferSize == if buffer == null then 0 else buffer.Length
      ensures if Grows(old(Positions()), n)
              then fresh(buffer) && dataSize <= bufferSize && Memory()[..dataSize] == old(Contents())
              else buffer == old(buffer)
    {
      var excp := false;
      if dataSize + n > bufferSize {
        excp := true;
      } else if insertPos == terminalPos && insertPos + n > bufferSize {
        if queryPos >= n {
          insertPos := 0;
        } else {
          excp := true;
        }
      } else {
        if insertPos < terminalPos && insertPos + n > queryPos {
          excp := true;
        }
      }
      assert excp == Grows(old(Positions()), n);
      if excp {
        Grow(n);
      }
    }

    /** memcpy of `data` to the insert position */
    method Store(data: seq<byte>)
      requires bufferSize == if buffer == null then 0 else buffer.Length
      requires insertPos + |data| <= bufferSize
      modifies buffer
      ensures Memory() == Written(old(Memory()), insertPos, data)
    {
      if buffer != null {
        forall k | 0 <= k < |data| {
          buffer[insertPos + k] := data[k];
        }
      }
    }

    /** dataqueue_insert_data */
    method Insert(data: seq<byte>)
      requires Valid()
      modifies this, buffer
      ensures buffer == old(buffer) || fresh(buffer)
      ensures copied == old(copied) + CopyCost(old(Positions()), Op.Insert(|data|))
      ensures Positions() == InsertPos(old(Positions()), |data|)
      ensures Valid() <==> !Corrupts(old(Positions()), |data|)
      ensures Valid() ==> Contents() == old(Contents()) + data
      // after a corrupting insert the reader is handed the new bytes before the old ones
      ensures !Valid() ==> queryPos < terminalPos <= |Memory()| == bufferSize
                           && Memory()[queryPos..terminalPos] == data && Memory()[..queryPos] == old(Contents())
    {
      hide Reading, Shape, Corrupts, Grows, Room, CopyCost, Written;
      ghost var p, bytes := Positions(), Memory();
      MakeRoom(|data|);
      ghost var room := Memory();
      InsertFits(p, |data|);
      Store(data);
      dataSize := dataSize + |data|;
      insertPos := insertPos + |data|;
      terminalPos := Max(terminalPos, insertPos);
      InsertOrdered(p, bytes, room, data, Positions(), Memory());
      assert Valid() <==> Sound(Positions());
    }

    /** The test a caller can make to stay clear of the excluded inserts. */
    method WouldCorrupt(n: nat) returns (b: bool)
      requires Valid()
      ensures b <==> Corrupts(Positions(), n)
    {
      b := insertPos == terminalPos == queryPos && dataSize > 0 && n > 0 && dataSize + n <= bufferSize;
    }

    /** dataqueue_distill_data */
    method Distill(n: nat)
      requires Valid()
      requires dataSize > 0 ==> n <= Exposed(Positions())
      modifies this
      ensures Valid() && buffer == old(buffer) && copied == old(copied)
      ensures Positions() == DistillPos(old(Positions()), n)
      ensures Contents() == if old(dataSize) == 0 then [] else old(Contents())[n..]
    {
      if dataSize == 0 || buffer == null {
        return;
      }
      if queryPos == terminalPos {
        queryPos := 0;
        terminalPos := insertPos;
      }
      dataSize := dataSize - n;
      queryPos := queryPos + n;
    }

    /** dataqueue_next_data: the exposed bytes are buffer[start..start+len]. */
    method NextData() returns (start: nat, len: nat)
      requires Valid() && dataSize > 0
      modifies this
      ensures Valid() && buffer != null && buffer == old(buffer) && copied == old(copied)
      ensures Positions() == Turn(old(Positions())) && !CollidedShape(insertPos, terminalPos, queryPos, dataSize)
      ensures Contents() == old(Contents())
      ensures len == Exposed(old(Positions())) == Exposed(Positions()) && 0 < len <= dataSize
      ensures start + len <= buffer.Length && buffer[start..start + len] == Contents()[..len]
    {
      if queryPos == terminalPos {
        queryPos := 0;
        terminalPos := insertPos;
      }
      start := queryPos;
      len := terminalPos - queryPos;
    }
  }

  // ---- a queue between a writer and a reader ---------------------------------------

  /** A writer puts bytes in; a reader takes some of the bytes it is shown. */
  datatype Access = Put(data: seq<byte>) | Take(most: nat)

  /** All the bytes put, in order. */
  function AllPut(turns: seq<Access>): seq<byte> {
    if turns == [] then []
    else
      var last := turns[|turns| - 1];
      AllPut(turns[..|turns| - 1]) + if last.Put? then last.data else []
  }

  lemma AllPutNext(turns: seq<Access>, k: nat)
    requires k < |turns|
    ensures AllPut(turns[..k + 1]) == AllPut(turns[..k]) + if turns[k].Put? then turns[k].data else []
  {
    assert turns[..k + 1][..k] == turns[..k];
  }

  /** One read: what next_data exposes, `most` bytes at most. */
  method TakeSome(q: Queue, most: nat) returns (got: seq<byte>)
    requires q.Valid()
    modifies q
    ensures q.Valid() && q.buffer == old(q.buffer) && |got| <= most
    ensures got + q.Contents() == old(q.Contents())
    ensures old(q.dataSize) > 0 && most > 0 ==> got != []
  {
    hide Queue.Valid, Queue.Contents, Reading, Shape, Turn, Exposed, DistillPos, CollidedShape;
    if q.dataSize == 0 {
      return [];
    }
    var start, len := q.NextData();
    var n := Min(most, len);
    got := q.buffer[start..start + n];
    assert got == q.Contents()[..n];
    q.Distill(n);
  }

  /**
    Nothing is lost, doubled or reordered, however reads and writes take turns: what was read and what is
    still queued are what was put.  The run stops only before an insert that the queue does not survive.
   */
  method Transfer(turns: seq<Access>) returns (q: Queue, read: seq<byte>, done: nat)
    ensures fresh(q) && q.Valid() && done <= |turns|
    ensures read + q.Contents() == AllPut(turns[..done])
    ensures done < |turns| ==> turns[done].Put? && Corrupts(q.Positions(), |turns[done].data|)
  {
    hide Corrupts, InsertPos, Queue.Contents, Queue.Positions;
    q := new Queue();
    read, done := [], 0;
    while done < |turns|
      invariant done <= |turns| && fresh(q) && q.Valid() && (q.buffer == null || fresh(q.buffer))
      invariant read + q.Contents() == AllPut(turns[..done])
    {
      AllPutNext(turns, done);
      ghost var before := q.Contents();
      if turns[done].Put? {
        var data := turns[done].data;
        var corrupts := q.WouldCorrupt(|data|);
        if corrupts {
          return;
        }
        q.Insert(data);
        assert read + (before + data) == read + before + data;
      } else {
        var got := TakeSome(q, turns[done].most);
        assert read + (got + q.Contents()) == read + got + q.Contents();
        read := read + got;
      }
      done := done + 1;
    }
  }
}
