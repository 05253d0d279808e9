/**
  The channels of channel.c, without SSL: their circular list, their flags and queues against the masks
  of the event loop, and the sweep for time-outs.
 */
module Channels {
  import opened Common
  import opened EventLoops

  class Channel {
    var next: Channel?
    var prev: Channel?
    var bound: bool
    var inQueue: seq<byte>
    var outQueue: seq<byte>
    var lastInteraction: u32
    var timeouts: u32
    const fd: int
    const upstream: bool
    var recvEnabled: bool
    var sendEnabled: bool
    var connected: bool
    /** The socket has a peer: it was accepted, or connect has been called on it.  Only the kernel knows. */
    var joined: bool
    /** The last channel_send returned false. */
    ghost var refused: bool

    constructor (fd: int, upstream: bool)
      ensures this.fd == fd && this.upstream == upstream && joined == !upstream
      ensures next == null && prev == null && !bound && inQueue == [] && outQueue == []
      ensures !recvEnabled && !sendEnabled && !connected && !refused && timeouts == 0 && lastInteraction == 0
    {
      this.fd, this.upstream, joined := fd, upstream, !upstream;
      next, prev, bound, inQueue, outQueue := null, null, false, [], [];
      lastInteraction, timeouts, recvEnabled, sendEnabled, connected, refused := 0, 0, false, false, false, false;
    }
  }

  /** What a channel's handler is told; `Missing` is a call although no handler has been bound. */
  datatype Notice =
    | Closed(channel: Channel)
    | Received(channel: Channel, bytes: seq<byte>)
    | Sent(channel: Channel, size: nat)
    | Missing(channel: Channel)

  /** The callbacks of data call the handler without a test whether there is one. */
  function Called(bound: bool, notice: Notice): Notice { if bound then notice else Missing(notice.channel) }

  /** What a handler, or the application, may do; positions count round the list. */
  datatype Deed =
    | Arrive(fd: nat, upstream: bool)
    | BindAt(at: nat, timeouts: u32, joined: bool, grant: bool, now: u32)
    | SendAt(at: nat, data: seq<byte>, grant: bool)
    | CloseAt(at: nat)
    | Watch(fd: nat, mask: Mask, grant: bool)
    | Forget(fd: nat, mask: Mask)

  /**
    A fired event, what the calls that its callbacks make will return, and what is done by the handlers that
    the read callback and the write callback call.
   */
  datatype Fired = Fired(
    fd: nat, mask: Mask, input: seq<byte>, room: nat, grant: bool, now: u32, onRead: seq<Deed>, onWrite: seq<Deed>)

  lemma Differ(log: seq<Notice>, n: Notice, m: Notice)
    requires n != m
    ensures log + [n] != log + [m]
  {
    assert (log + [n])[|log|] == n;
  }

  // ---- the circular list ------------------------------------------------------------------

  function Succ(i: nat, n: nat): nat { if i + 1 >= n then 0 else i + 1 }

  function Pred(i: nat, n: nat): nat
    requires n > 0
  {
    if i == 0 then n - 1 else i - 1
  }

  /** `ring` is one cycle of next, and prev goes back. */
  ghost predicate Linked(ring: seq<Channel>)
    reads ring`next, ring`prev
  {
    && (forall i, j :: 0 <= i < j < |ring| ==> ring[i] != ring[j])
    && (forall i :: 0 <= i < |ring| ==> ring[i].next == ring[Succ(i, |ring|)])
    && (forall i :: 0 <= i < |ring| ==> ring[i].prev == ring[Pred(i, |ring|)])
  }

  /** (-1) as an unsigned time-out */
  const NEVER: u32 := 0xFFFF_FFFF

  /** _MAX_CONNECTING_SECS */
  const CONNECTING_SECONDS: u32 := 3

  /** The test of _check_timeouts, whose sums wrap. */
  predicate Overdue(timeouts: u32, connected: bool, last: u32, now: u32) {
    if timeouts == NEVER then !connected && (last + CONNECTING_SECONDS) % 0x1_0000_0000 < now
    else (last + timeouts) % 0x1_0000_0000 < now
  }

  predicate Expired(c: Channel, now: u32)
    reads c`timeouts, c`connected, c`lastInteraction
  {
    Overdue(c.timeouts, c.connected, c.lastInteraction, now)
  }

  /**
    What the test means for a clock that has not gone back: the time-out has passed, or its end does not
    fit 32 bits, in which case the channel goes at the first sweep.
   */
  lemma OverdueMeans(timeouts: u32, connected: bool, last: u32, now: u32)
    requires last <= now
    ensures var limit := if timeouts == NEVER then CONNECTING_SECONDS else timeouts;
            Overdue(timeouts, connected, last, now)
            <==> (timeouts == NEVER ==> !connected) && (now - last > limit || last + limit >= 0x1_0000_0000)
  {
  }

  // ---- what a sweep leaves ------------------------------------------------------------------

  /** The time-out test of every channel. */
  ghost function Dead(cs: seq<Channel>, now: u32): (d: seq<bool>)
    reads cs
    ensures |d| == |cs| && forall i :: 0 <= i < |cs| ==> d[i] == Expired(cs[i], now)
  {
    if cs == [] then [] else Dead(cs[..|cs| - 1], now) + [Expired(cs[|cs| - 1], now)]
  }

  /** The elements not marked, in order. */
  function Unmarked<T>(s: seq<T>, marks: seq<bool>): seq<T>
    requires |marks| == |s|
  {
    if s == [] then []
    else
      var n := |s| - 1;
      Unmarked(s[..n], marks[..n]) + if marks[n] then [] else [s[n]]
  }

  lemma UnmarkedSnoc<T>(s: seq<T>, marks: seq<bool>, k: nat)
    requires |marks| == |s| && k < |s|
    ensures Unmarked(s[..k + 1], marks[..k + 1]) == Unmarked(s[..k], marks[..k]) + if marks[k] then [] else [s[k]]
  {
    assert s[..k + 1][..k] == s[..k] && marks[..k + 1][..k] == marks[..k];
  }

  /** Exactly the elements not marked are left, and two of them stand as they stood. */
  lemma {:induction false} UnmarkedAt<T>(s: seq<T>, marks: seq<bool>, k: nat)
    requires |marks| == |s| && k < |s| && !marks[k]
    ensures var before := Unmarked(s[..k], marks[..k]);
            |before| < |Unmarked(s, marks)| && Unmarked(s, marks)[..|before| + 1] == before + [s[k]]
    decreases |s|
  {
    var n := |s| - 1;
    if k < n {
      UnmarkedAt(s[..n], marks[..n], k);
      assert s[..n][..k] == s[..k] && marks[..n][..k] == marks[..k];
    }
  }

  /** The number of nodes that _check_timeouts looks at: all but the tail, or the only one. */
  function Visited(n: nat): nat { if n <= 1 then n else n - 1 }

  /** The list when the first `k` channels have been looked at. */
  function Swept<T>(was: seq<T>, dead: seq<bool>, k: nat): seq<T>
    requires |dead| == |was| && k <= |was|
  {
    Unmarked(was[..k], dead[..k]) + was[k..]
  }

  lemma {:induction false} UnmarkedMember<T>(s: seq<T>, marks: seq<bool>, x: T)
    requires |marks| == |s|
    ensures x in Unmarked(s, marks) <==> exists i :: 0 <= i < |s| && s[i] == x && !marks[i]
    decreases |s|
  {
    if s != [] {
      var n := |s| - 1;
      UnmarkedMember(s[..n], marks[..n], x);
      if x in Unmarked(s[..n], marks[..n]) {
        var i :| 0 <= i < n && s[..n][i] == x && !marks[..n][i];
        assert s[i] == x && !marks[i];
      }
      if i :| 0 <= i < |s| && s[i] == x && !marks[i] {
        if i < n {
          assert s[..n][i] == x && !marks[..n][i];
        }
      }
    }
  }

  /** An expired channel stays if and only if it is the tail and not alone. */
  lemma SweptIff<T>(was: seq<T>, dead: seq<bool>, k: nat)
    requires |dead| == |was| && k < |was| && forall i, j :: 0 <= i < j < |was| ==> was[i] != was[j]
    ensures was[k] in Swept(was, dead, Visited(|was|)) <==> !dead[k] || (k == |was| - 1 && k > 0)
  {
    hide Unmarked;
    var v := Visited(|was|);
    UnmarkedMember(was[..v], dead[..v], was[k]);
    if k < v {
      assert was[..v][k] == was[k] && dead[..v][k] == dead[k];
      assert was[k] !in was[v..];
    } else {
      assert was[v..][k - v] == was[k];
    }
  }

  /** The messages to the handlers of the channels marked. */
  ghost function Closings(cs: seq<Channel>, bound: seq<bool>, marks: seq<bool>): seq<Notice>
    requires |marks| == |cs| == |bound|
  {
    if cs == [] then []
    else
      var n := |cs| - 1;
      Closings(cs[..n], bound[..n], marks[..n]) + if marks[n] && bound[n] then [Closed(cs[n])] else []
  }

  ghost function Bound(cs: seq<Channel>): (d: seq<bool>)
    reads cs
    ensures |d| == |cs| && forall i :: 0 <= i < |cs| ==> d[i] == cs[i].bound
  {
    if cs == [] then [] else Bound(cs[..|cs| - 1]) + [cs[|cs| - 1].bound]
  }

  /** The messages when the first `k` channels have been looked at. */
  ghost function Notices(cs: seq<Channel>, bound: seq<bool>, marks: seq<bool>, k: nat): seq<Notice>
    requires |marks| == |cs| == |bound| && k <= |cs|
  {
    Closings(cs[..k], bound[..k], marks[..k])
  }

  lemma NoticesNext(cs: seq<Channel>, bound: seq<bool>, marks: seq<bool>, k: nat)
    requires |marks| == |cs| == |bound| && k < |cs|
    ensures Notices(cs, bound, marks, k + 1)
         == Notices(cs, bound, marks, k) + if marks[k] && bound[k] then [Closed(cs[k])] else []
  {
    assert cs[..k + 1][..k] == cs[..k] && marks[..k + 1][..k] == marks[..k] && bound[..k + 1][..k] == bound[..k];
  }

  /** A new first element whose neighbours know it. */
  lemma LinkedWith(c: Channel, was: seq<Channel>)
    requires c !in was && forall j, k :: 0 <= j < k < |was| ==> was[j] != was[k]
    requires c.next == (if was == [] then c else was[0]) && c.prev == if was == [] then c else was[|was| - 1]
    requires forall k :: 0 <= k < |was| ==> was[k].next == if k == |was| - 1 then c else was[Succ(k, |was|)]
    requires forall k :: 0 <= k < |was| ==> was[k].prev == if k == 0 then c else was[Pred(k, |was|)]
    ensures Linked([c] + was)
  {
    var ring, n := [c] + was, |was| + 1;
    forall i | 0 <= i < n
      ensures ring[i].next == ring[Succ(i, n)] && ring[i].prev == ring[Pred(i, n)]
    {
      if i == 0 {
        if was != [] {
          assert ring[1] == was[0];
          assert ring[n - 1] == was[n - 2];
        }
      } else {
        assert ring[i] == was[i - 1];
        if i + 1 < n {
          assert ring[i + 1] == was[i];
        }
        if i > 1 {
          assert ring[i - 1] == was[i - 2];
        }
      }
    }
  }

  /** Taking element `i` out of a ring whose neighbours have been joined. */
  lemma LinkedWithout(was: seq<Channel>, i: nat)
    requires i < |was|
    requires forall j, k :: 0 <= j < k < |was| ==> was[j] != was[k]
    requires forall k :: 0 <= k < |was| && k != i ==>
               was[k].next == if k == Pred(i, |was|) then was[Succ(i, |was|)] else was[Succ(k, |was|)]
    requires forall k :: 0 <= k < |was| && k != i ==>
               was[k].prev == if k == Succ(i, |was|) then was[Pred(i, |was|)] else was[Pred(k, |was|)]
    ensures Linked(was[..i] + was[i + 1..])
  {
    var n, ring := |was|, was[..i] + was[i + 1..];
    forall a, b | 0 <= a < b < n - 1
      ensures ring[a] != ring[b]
    {
      ElementWithout(was, i, a);
      ElementWithout(was, i, b);
    }
    hide Succ, Pred, Old;
    forall j | 0 <= j < n - 1
      ensures ring[j].next == ring[Succ(j, n - 1)] && ring[j].prev == ring[Pred(j, n - 1)]
    {
      NeighboursWithout(n, i, j);
      ElementWithout(was, i, j);
      ElementWithout(was, i, Succ(j, n - 1));
      ElementWithout(was, i, Pred(j, n - 1));
    }
  }

  /** Where element `j` stood before element `i` was taken out. */
  function Old(j: nat, i: nat): nat { if j < i then j else j + 1 }

  lemma ElementWithout(was: seq<Channel>, i: nat, j: nat)
    requires i < |was| && j < |was| - 1
    ensures Old(j, i) < |was| && (was[..i] + was[i + 1..])[j] == was[Old(j, i)]
  {
  }

  lemma NeighboursWithout(n: nat, i: nat, j: nat)
    requires i < n && j < n - 1
    ensures 0 <= Succ(j, n - 1) < n - 1 && 0 <= Pred(j, n - 1) < n - 1 && Old(j, i) != i
    ensures Old(Succ(j, n - 1), i) == if Old(j, i) == Pred(i, n) then Succ(i, n) else Succ(Old(j, i), n)
    ensures Old(Pred(j, n - 1), i) == if Old(j, i) == Succ(i, n) then Pred(i, n) else Pred(Old(j, i), n)
  {
  }

  lemma MembersWithout(was: seq<Channel>, i: nat)
    requires i < |was|
    requires forall j, k :: 0 <= j < k < |was| ==> was[j] != was[k]
    ensures was[i] !in was[..i] + was[i + 1..]
    ensures forall x :: x in was && x != was[i] ==> x in was[..i] + was[i + 1..]
  {
    assert was == was[..i] + [was[i]] + was[i + 1..];
  }

  /** A fired event of this descriptor may call a channel. */
  predicate CallsChannel(e: FileEvent<Channel>) {
    (e.mask.read && e.rproc == ReadCallback) || (e.mask.write && e.wproc == WriteCallback)
  }

  /**
    What may happen: something is done to the channels, or to the descriptors of other modules in the same
    loop, the wake-up pipe and the acceptors; an event fires; or the sweep is due.
   */
  datatype Command = Do(deed: Deed) | Fire(fired: Fired) | Tick(now: u32)

  class Net {
    const loop: EventLoop<Channel>
    var head: Channel?
    ghost var ring: seq<Channel>
    /** The channels not freed. */
    ghost var live: set<Channel>
    ghost var notices: seq<Notice>
    /** How many times channel_send was called for a channel that was not bound. */
    ghost var early: nat

    constructor (loop: EventLoop<Channel>)
      requires loop.Valid() && forall fd :: 0 <= fd < loop.setsize ==> !CallsChannel(loop.events[fd])
      ensures Valid() && Attended() && this.loop == loop && ring == [] && notices == [] && early == 0
    {
      this.loop := loop;
      head, ring, live, notices, early := null, [], {}, [], 0;
    }

    /** A channel's flags are its descriptor's mask, and data waits for the descriptor to be writable. */
    ghost predicate Tracks(c: Channel)
      requires loop.Valid()
      reads c`recvEnabled, c`sendEnabled, c`outQueue, c`refused, loop, loop.events
    {
      && c.fd >= 0
      && (c.fd >= loop.setsize ==> !c.recvEnabled && !c.sendEnabled)
      && (c.fd < loop.setsize ==>
            var e := loop.events[c.fd];
            && e.mask == Mask(c.recvEnabled, c.sendEnabled)
            && (c.recvEnabled ==> e.rproc == ReadCallback)
            && (c.sendEnabled ==> e.wproc == WriteCallback)
            && (e.mask != Nothing() ==> e.data == Some(c)))
      && (c.outQueue != [] ==> c.sendEnabled || c.refused)
    }

    /** A descriptor that would call a channel belongs to a live one. */
    ghost predicate Belongs(fd: int)
      requires loop.Valid() && 0 <= fd < loop.setsize
      reads `live, loop, loop.events
    {
      var e := loop.events[fd];
      CallsChannel(e) ==> e.data.Some? && e.data.value in live && e.data.value.fd == fd
    }

    /** The registry: masks, kernel, flags and queues of the live channels. */
    ghost predicate Agrees()
      reads `live, live`recvEnabled, live`sendEnabled, live`outQueue, live`refused, loop, loop.events
    {
      && loop.Valid()
      && (forall c :: c in live ==> Tracks(c))
      && (forall c, d :: c in live && d in live && c.fd == d.fd ==> c == d)
      && forall fd :: 0 <= fd < loop.setsize ==> Belongs(fd)
    }

    ghost predicate IsList()
      reads `head, `ring, ring`next, ring`prev
    {
      Linked(ring) && head == if ring == [] then null else ring[0]
    }

    ghost predicate Valid()
      reads this, ring, live, loop, loop.events
    {
      IsList() && Agrees() && (forall c :: c in ring ==> c in live) && forall c :: c in live ==> c in ring
    }

    /** While nobody sends too early, every channel in the loop has a handler, and none is missed. */
    ghost predicate Attended()
      reads `live, `notices, `early, live`recvEnabled, live`sendEnabled, live`bound
    {
      early == 0 ==>
        && (forall c :: c in live ==> Heard(c))
        && forall n :: n in notices ==> !n.Missing?
    }

    ghost predicate Heard(c: Channel)
      reads c`recvEnabled, c`sendEnabled, c`bound
    {
      c.recvEnabled || c.sendEnabled ==> c.bound
    }

    /** What changes one channel, and tells a handler that there is, misses none. */
    twostate lemma StillAttended(new c: Channel)
      requires old(Attended()) && early == old(early)
      requires c in live ==> Heard(c) || early > 0
      requires |notices| >= |old(notices)| && notices[..|old(notices)|] == old(notices)
      requires early == 0 ==> forall j :: |old(notices)| <= j < |notices| ==> !notices[j].Missing?
      requires forall x :: x in live && x != c ==>
                 && x in old(live) && x.recvEnabled == old(x.recvEnabled) && x.sendEnabled == old(x.sendEnabled)
                 && x.bound == old(x.bound)
      ensures Attended()
    {
      if early == 0 {
        forall x | x in live
          ensures Heard(x)
        {
          assert x != c ==> old(Heard(x));
        }
        forall n | n in notices
          ensures !n.Missing?
        {
          var j :| 0 <= j < |notices| && notices[j] == n;
          if j < |old(notices)| {
            assert notices[..|old(notices)|][j] == n;
          }
        }
      }
    }

    /** What tells nobody anything, and leaves a channel bound, or its flags as they were. */
    twostate lemma QuietlyAttended(new c: Channel)
      requires old(Attended()) && old(early) <= early && notices == old(notices)
      requires early == 0 && c in live ==>
                 || c.bound || (!c.recvEnabled && !c.sendEnabled)
                 || (c in old(live) && c.recvEnabled == old(c.recvEnabled) && c.sendEnabled == old(c.sendEnabled)
                     && c.bound == old(c.bound))
      requires forall x :: x in live && x != c ==>
                 && x in old(live) && x.recvEnabled == old(x.recvEnabled) && x.sendEnabled == old(x.sendEnabled)
                 && x.bound == old(x.bound)
      ensures Attended()
    {
      if early == 0 {
        StillAttended(c);
      }
    }

    /** What changes one channel and its descriptor keeps the registry. */
    twostate lemma OneChannel(c: Channel)
      requires old(Agrees()) && c in live && live == old(live) && loop.Valid() && Tracks(c)
      requires forall x :: x in live && x != c ==>
                 && x.recvEnabled == old(x.recvEnabled) && x.sendEnabled == old(x.sendEnabled)
                 && x.outQueue == old(x.outQueue) && x.refused == old(x.refused)
      requires forall fd :: 0 <= fd < loop.setsize && fd != c.fd ==> loop.events[fd] == old(loop.events[fd])
      ensures Agrees()
    {
      forall x | x in live
        ensures Tracks(x)
      {
        assert old(Tracks(x));
      }
      forall fd | 0 <= fd < loop.setsize
        ensures Belongs(fd)
      {
        assert old(Belongs(fd));
      }
    }

    /** What changes a descriptor that no channel has keeps the registry. */
    twostate lemma OtherDescriptor(other: int)
      requires old(Agrees()) && live == old(live) && loop.Valid()
      requires forall x :: x in live ==>
                 && x.fd != other && x.recvEnabled == old(x.recvEnabled) && x.sendEnabled == old(x.sendEnabled)
                 && x.outQueue == old(x.outQueue) && x.refused == old(x.refused)
      requires 0 <= other < loop.setsize ==> !CallsChannel(loop.events[other])
      requires forall fd :: 0 <= fd < loop.setsize && fd != other ==> loop.events[fd] == old(loop.events[fd])
      ensures Agrees()
    {
      forall x | x in live
        ensures Tracks(x)
      {
        assert old(Tracks(x));
      }
      forall fd | 0 <= fd < loop.setsize
        ensures Belongs(fd)
      {
        assert old(Belongs(fd));
      }
    }

    /** aeCreateFileEvent by another module. */
    method Register(fd: int, mask: Mask, grant: bool) returns (r: int)
      requires Valid() && fd >= 0 && mask != Nothing() && forall x :: x in ring ==> x.fd != fd
      modifies loop, loop.events
      ensures Valid() && r == if fd < loop.setsize && grant then 0 else -1
      ensures r == 0 ==> loop.events[fd].mask == Or(old(loop.events[fd].mask), mask)
    {
      hide IsList;
      if fd < loop.setsize {
        assert Belongs(fd);
      }
      r := loop.CreateFileEvent(fd, mask, Elsewhere, None, grant);
      OtherDescriptor(fd);
    }

    /** aeDeleteFileEvent by another module. */
    method Unregister(fd: int, mask: Mask)
      requires Valid() && 0 <= fd < loop.setsize && forall x :: x in ring ==> x.fd != fd
      modifies loop, loop.events
      ensures Valid() && loop.events[fd].mask == Without(old(loop.events[fd].mask), mask)
    {
      hide IsList;
      assert Belongs(fd);
      loop.DeleteFileEvent(fd, mask);
      OtherDescriptor(fd);
    }

    /** The end of channel_create: the new channel becomes the head. */
    method Link(c: Channel)
      requires IsList() && c !in ring
      modifies `head, `ring, c`next, c`prev, ring`next, ring`prev
      ensures IsList() && ring == [c] + old(ring)
    {
      ghost var was, n := ring, |ring|;
      if head != null {
        assert ring[0].prev == ring[n - 1];
        c.next := head;
        c.prev := head.prev;
        head.prev.next := c;
        head.prev := c;
      } else {
        c.next := c;
        c.prev := c;
      }
      head := c;
      ring := [c] + ring;
      LinkedWith(c, was);
    }

    /** The neighbours of a channel in the list are joined. */
    method Join(c: Channel, ghost i: nat)
      requires IsList() && i < |ring| && ring[i] == c && |ring| > 1
      modifies ring`next, ring`prev
      ensures c.next == old(c.next) && c.prev == old(c.prev) && ring == old(ring)
      ensures forall k :: 0 <= k < |ring| && k != i ==>
                ring[k].next == if k == Pred(i, |ring|) then ring[Succ(i, |ring|)] else ring[Succ(k, |ring|)]
      ensures forall k :: 0 <= k < |ring| && k != i ==>
                ring[k].prev == if k == Succ(i, |ring|) then ring[Pred(i, |ring|)] else ring[Pred(k, |ring|)]
    {
      ghost var before, after := ring[Pred(i, |ring|)], ring[Succ(i, |ring|)];
      assert c.prev == before && c.next == after;
      c.prev.next := c.next;
      c.next.prev := c.prev;
    }

    /** The beginning of channel_close: the channel leaves the list. */
    method Unlink(c: Channel, ghost i: nat)
      requires IsList() && i < |ring| && ring[i] == c
      modifies `head, `ring, ring`next, ring`prev
      ensures IsList() && ring == old(ring)[..i] + old(ring)[i + 1..] && c !in ring
      ensures forall x :: x in old(ring) && x != c ==> x in ring
      ensures forall x :: x in ring ==> x in old(ring)
    {
      ghost var was := ring;
      var first := head;
      if c == head {
        first := head.next;
      }
      if c == first {
        first := null;
      } else {
        assert |ring| > 1;
        Join(c, i);
      }
      head := first;
      c.next := null;
      c.prev := null;
      ring := ring[..i] + ring[i + 1..];
      LinkedWithout(was, i);
      MembersWithout(was, i);
    }

    /** Every other descriptor is as it was. */
    ghost predicate OthersKept(fd: int, was: seq<FileEvent<Channel>>)
      reads loop, loop.events
    {
      |was| == loop.events.Length && forall k :: 0 <= k < |was| && k != fd ==> loop.events[k] == was[k]
    }

    /** aeCreateFileEvent for a channel: its flag follows. */
    method Enable(c: Channel, mask: Mask, grant: bool) returns (ok: bool)
      requires Agrees() && c in live && (mask == Readable() || mask == Writable())
      modifies c`recvEnabled, c`sendEnabled, loop, loop.events
      ensures Agrees()
      ensures ok == (c.fd < loop.setsize && grant)
      ensures ok ==> && c.recvEnabled == (old(c.recvEnabled) || mask.read)
                     && c.sendEnabled == (old(c.sendEnabled) || mask.write)
      ensures !ok ==> c.recvEnabled == old(c.recvEnabled) && c.sendEnabled == old(c.sendEnabled)
      ensures OthersKept(c.fd, old(loop.events[..]))
    {
      var r := loop.CreateFileEvent(c.fd, mask, if mask.read then ReadCallback else WriteCallback, Some(c), grant);
      ok := r == 0;
      if ok {
        c.recvEnabled := c.recvEnabled || mask.read;
        c.sendEnabled := c.sendEnabled || mask.write;
      }
      OneChannel(c);
    }

    /** aeDeleteFileEvent for a channel with the flag set. */
    method Disable(c: Channel, mask: Mask)
      requires Agrees() && c in live && (mask == Readable() || (mask == Writable() && (c.outQueue == [] || c.refused)))
      modifies c`recvEnabled, c`sendEnabled, loop, loop.events
      ensures Agrees()
      ensures c.recvEnabled == (old(c.recvEnabled) && !mask.read)
              && c.sendEnabled == (old(c.sendEnabled) && !mask.write)
      ensures OthersKept(c.fd, old(loop.events[..]))
    {
      loop.DeleteFileEvent(c.fd, mask);
      c.recvEnabled := c.recvEnabled && !mask.read;
      c.sendEnabled := c.sendEnabled && !mask.write;
      OneChannel(c);
    }

    /** A new channel without flags keeps the registry. */
    twostate lemma OneMore(new c: Channel)
      requires old(Agrees()) && live == old(live) + {c} && c !in old(live) && loop.Valid()
      requires loop.events[..] == old(loop.events[..])
      requires c.fd >= 0 && !c.recvEnabled && !c.sendEnabled && c.outQueue == []
      requires c.fd < loop.setsize ==> loop.events[c.fd].mask == Nothing()
      requires forall x :: x in old(live) ==>
                 && x.fd != c.fd && x.recvEnabled == old(x.recvEnabled) && x.sendEnabled == old(x.sendEnabled)
                 && x.outQueue == old(x.outQueue) && x.refused == old(x.refused)
      ensures Agrees()
    {
      assert forall fd :: 0 <= fd < loop.setsize ==> loop.events[fd] == loop.events[..][fd];
      forall x | x in live
        ensures Tracks(x)
      {
        assert x != c ==> old(Tracks(x));
      }
      forall fd | 0 <= fd < loop.setsize
        ensures Belongs(fd)
      {
        assert old(Belongs(fd));
      }
    }

    /** A channel without a mask can be freed. */
    twostate lemma OneLess(c: Channel)
      requires old(Agrees()) && c in old(live) && live == old(live) - {c} && loop.Valid()
      requires loop.events[..] == old(loop.events[..])
      requires !old(c.recvEnabled) && !old(c.sendEnabled)
      requires forall x :: x in live ==>
                 && x.recvEnabled == old(x.recvEnabled) && x.sendEnabled == old(x.sendEnabled)
                 && x.outQueue == old(x.outQueue) && x.refused == old(x.refused)
      ensures Agrees()
      ensures c.fd < loop.events.Length ==> c.fd >= 0 && loop.events[c.fd].mask == Nothing()
    {
      assert forall fd :: 0 <= fd < loop.setsize ==> loop.events[fd] == loop.events[..][fd];
      assert old(Tracks(c));
      forall x | x in live
        ensures Tracks(x)
      {
        assert old(Tracks(x));
      }
      forall fd | 0 <= fd < loop.setsize
        ensures Belongs(fd)
      {
        assert old(Belongs(fd));
      }
    }

    /** A new channel joins the registry. */
    method Admit(c: Channel)
      requires Agrees() && c !in live && c.fd >= 0 && !c.recvEnabled && !c.sendEnabled && c.outQueue == []
      requires (c.fd < loop.setsize ==> loop.events[c.fd].mask == Nothing()) && forall x :: x in live ==> x.fd != c.fd
      modifies `live
      ensures Agrees() && live == old(live) + {c}
    {
      live := live + {c};
      OneMore(c);
    }

    /** channel_create for a descriptor the kernel has just handed out. */
    method Create(fd: int, upstream: bool) returns (c: Channel)
      requires Valid() && fd >= 0 && (fd < loop.setsize ==> loop.events[fd].mask == Nothing())
      requires forall x :: x in ring ==> x.fd != fd
      modifies `head, `ring, `live, `notices, ring`next, ring`prev
      ensures Valid() && fresh(c) && c.fd == fd && c.upstream == upstream
      ensures ring == [c] + old(ring) && notices == old(notices)
      ensures old(Attended()) ==> Attended()
      ensures c.joined == !upstream && !c.connected && !c.bound && c.outQueue == [] && !c.recvEnabled && !c.sendEnabled
    {
      hide IsList, Agrees, Attended;
      c := new Channel(fd, upstream);
      Link(c);
      LoopLength();
      Admit(c);
      if old(Attended()) {
        QuietlyAttended(c);
      }
    }

    lemma LoopLength()
      requires Agrees()
      ensures loop.events.Length == loop.setsize
    {
    }

    /** The registrations of a channel about to be freed go. */
    method Silence(c: Channel)
      requires Agrees() && c in live
      modifies c`recvEnabled, c`sendEnabled, c`refused, loop, loop.events
      ensures Agrees() && !c.recvEnabled && !c.sendEnabled
      ensures OthersKept(c.fd, old(loop.events[..]))
    {
      c.refused := true;
      OneChannel(c);
      if c.recvEnabled {
        Disable(c, Readable());
      }
      if c.sendEnabled {
        Disable(c, Writable());
      }
    }

    /** The end of channel_close: registrations and queues go, and the channel is freed. */
    method Free(c: Channel)
      requires Agrees() && c in live
      modifies `live, c`recvEnabled, c`sendEnabled, c`refused, c`inQueue, c`outQueue, loop, loop.events
      ensures Agrees() && live == old(live) - {c}
      ensures c.fd < loop.events.Length ==> c.fd >= 0 && loop.events[c.fd].mask == Nothing()
      ensures OthersKept(c.fd, old(loop.events[..]))
    {
      Silence(c);
      label silent:
      c.inQueue, c.outQueue := [], [];
      live := live - {c};
      OneLess@silent(c);
    }

    /** channel_close of element `i` of the list. */
    method Close(c: Channel, ghost i: nat)
      requires Valid() && i < |ring| && ring[i] == c
      modifies `head, `ring, `live, `notices, c, ring`next, ring`prev, loop, loop.events
      ensures Valid() && ring == old(ring)[..i] + old(ring)[i + 1..] && c !in ring
      ensures old(Attended()) ==> Attended()
      ensures notices == old(notices) + if old(c.bound) then [Closed(c)] else []
      ensures c.fd < loop.events.Length ==> c.fd >= 0 && loop.events[c.fd].mask == Nothing()
      ensures OthersKept(c.fd, old(loop.events[..]))
    {
      hide IsList, Agrees;
      Unlink(c, i);
      if c.bound {
        notices := notices + [Closed(c)];
      }
      Free(c);
      if old(Attended()) {
        StillAttended(c);
      }
    }

    /** channel_send, but for who is there to hear of it. */
    method Post(c: Channel, data: seq<byte>, grant: bool) returns (ok: bool)
      requires Agrees() && c in live
      modifies c`outQueue, c`recvEnabled, c`sendEnabled, c`refused, loop, loop.events
      ensures Agrees() && c.outQueue == old(c.outQueue) + data
      ensures ok == (old(c.sendEnabled) || (c.fd < loop.setsize && grant)) && c.sendEnabled == ok
      ensures c.recvEnabled == old(c.recvEnabled)
      ensures ok ==> c.fd in loop.kernel && loop.kernel[c.fd].write
    {
      c.outQueue, c.refused := c.outQueue + data, true;
      OneChannel(c);
      ok := c.sendEnabled;
      if !ok {
        ok := Enable(c, Writable(), grant);
      }
      c.refused := !ok;
      OneChannel(c);
    }

    /** channel_send; `grant` is the kernel's answer if it is asked to watch the descriptor. */
    method Send(c: Channel, data: seq<byte>, grant: bool) returns (ok: bool)
      requires Valid() && c in ring
      modifies c`outQueue, c`recvEnabled, c`sendEnabled, c`refused, `early, loop, loop.events
      ensures Valid() && c.outQueue == old(c.outQueue) + data
      ensures ok == (old(c.sendEnabled) || (c.fd < loop.setsize && grant)) && c.sendEnabled == ok
      ensures old(Attended()) ==> Attended()
      ensures early == old(early) + if c.bound then 0 else 1
      ensures c.recvEnabled == old(c.recvEnabled)
      ensures ok ==> c.fd in loop.kernel && loop.kernel[c.fd].write
    {
      hide IsList, Agrees, Attended;
      if !c.bound {
        early := early + 1;
      }
      ok := Post(c, data, grant);
      if old(Attended()) {
        QuietlyAttended(c);
      }
    }

    /** The attempts of channel_bind; `joined` is aesocconnect's answer. */
    method Connect(c: Channel, joined: bool, grant: bool) returns (ok: bool)
      requires Agrees() && c in live
      modifies c`joined, c`recvEnabled, c`sendEnabled, loop, loop.events
      ensures Agrees() && c.joined == (old(c.joined) || (c.upstream && joined))
      ensures ok == (c.fd < loop.setsize && grant && (c.upstream ==> joined))
      ensures c.recvEnabled == (old(c.recvEnabled) || (ok && !c.upstream))
      ensures c.sendEnabled == (old(c.sendEnabled) || (ok && c.upstream))
    {
      ok := !c.upstream || joined;
      if c.upstream {
        c.joined := c.joined || joined;
      }
      if ok {
        ok := Enable(c, if c.upstream then Writable() else Readable(), grant);
      }
    }

    /** channel_bind.  A socket that has been joined stays so when the kernel then refuses to watch it. */
    method Bind(c: Channel, timeouts: u32, joined: bool, grant: bool, now: u32) returns (ok: bool)
      requires Valid() && c in ring
      modifies c`bound, c`joined, c`timeouts, c`lastInteraction, c`recvEnabled, c`sendEnabled, loop, loop.events
      ensures Valid() && c.joined == (old(c.joined) || (c.upstream && joined))
      ensures old(Attended()) ==> Attended()
      ensures ok == (c.fd < loop.setsize && grant && (c.upstream ==> joined))
      ensures ok ==> c.bound && c.timeouts == timeouts && c.lastInteraction == now
      ensures c.recvEnabled == (old(c.recvEnabled) || (ok && !c.upstream))
      ensures c.sendEnabled == (old(c.sendEnabled) || (ok && c.upstream))
      ensures !ok ==>
                c.bound == old(c.bound) && c.timeouts == old(c.timeouts) && c.lastInteraction == old(c.lastInteraction)
    {
      hide IsList, Agrees, Attended;
      ok := Connect(c, joined, grant);
      if ok {
        c.bound, c.timeouts, c.lastInteraction := true, timeouts, now;
      }
      if old(Attended()) {
        QuietlyAttended(c);
      }
    }

    /** A write event will find a socket with a peer, data, and no handler. */
    ghost predicate Unheard(c: Channel, room: nat, grant: bool)
      reads c, loop
    {
      && !c.bound && c.joined && room > 0 && c.outQueue != []
      && (c.connected || (c.upstream && (c.recvEnabled || (c.fd < loop.setsize && grant))))
    }

    /** channel_handshake without SSL: the connection stands, and an upstream channel starts to read. */
    method Handshake(c: Channel, ghost i: nat, grant: bool) returns (ok: bool)
      requires Valid() && i < |ring| && ring[i] == c
      modifies `head, `ring, `live, `notices, c, ring`next, ring`prev, loop, loop.events
      ensures Valid()
      ensures old(Attended() && (c.bound || early > 0)) ==> Attended()
      ensures ok == (!c.upstream || old(c.recvEnabled) || (c.fd < loop.setsize && grant))
      ensures ring == if ok then old(ring) else old(ring)[..i] + old(ring)[i + 1..]
      ensures ok ==> c.connected && c.recvEnabled == (old(c.recvEnabled) || c.upstream) && notices == old(notices)
      ensures ok ==> c.outQueue == old(c.outQueue) && c.inQueue == old(c.inQueue) && c.sendEnabled == old(c.sendEnabled)
      ensures ok ==> c.bound == old(c.bound) && c.joined == old(c.joined)
      ensures !ok ==> c !in ring && notices == old(notices) + if old(c.bound) then [Closed(c)] else []
      ensures OthersKept(c.fd, old(loop.events[..]))
    {
      hide IsList, Agrees;
      if c.upstream && !c.recvEnabled {
        ok := Enable(c, Readable(), grant);
        if !ok {
          Close(c, i);
          return;
        }
      }
      c.connected := true;
      ok := true;
      if old(Attended() && (c.bound || early > 0)) {
        StillAttended(c);
      }
    }

    /**
      _read_callback; `input` is what aesocread returned, nothing on an error, at the end, or on a socket
      without a peer.
     */
    method OnReadable(c: Channel, ghost i: nat, input: seq<byte>, grant: bool, now: u32)
      requires Valid() && i < |ring| && ring[i] == c
      modifies `head, `ring, `live, `notices, c, ring`next, ring`prev, loop, loop.events
      ensures Valid() && OthersKept(c.fd, old(loop.events[..]))
      ensures old(Attended() && (c.bound || early > 0)) ==> Attended()
      ensures var waits, got := !old(c.connected) && c.upstream, if old(c.joined) then input else [];
              && (waits ==> ring == old(ring) && notices == old(notices))
              && (!waits && got == [] ==>
                    ring == old(ring)[..i] + old(ring)[i + 1..]
                    && notices == old(notices) + (if old(c.bound) then [Closed(c)] else []))
              && (!waits && got != [] ==>
                    ring == old(ring) && c.connected && c.inQueue == old(c.inQueue) + got
                    && c.lastInteraction == now && notices == old(notices) + [Called(old(c.bound), Received(c, got))])
      ensures notices == old(notices) + [Missing(c)]
              <==> !old(c.bound) && old(c.joined) && input != [] && (old(c.connected) || !c.upstream)
    {
      hide IsList, Agrees;
      Differ(notices, Closed(c), Missing(c));
      Differ(notices, Received(c, input), Missing(c));
      if !c.connected {
        if c.upstream {
          return;
        }
        var stands := Handshake(c, i, grant);
      }
      if input == [] || !c.joined {
        Close(c, i);
        return;
      }
      c.lastInteraction := now;
      c.inQueue := c.inQueue + input;
      notices := notices + [Called(c.bound, Received(c, input))];
      if old(Attended() && (c.bound || early > 0)) {
        StillAttended(c);
      }
    }

    /**
      _write_callback; `room` bounds what aesocwrite takes of the bytes it is shown, 0 standing for an error,
      which is all that a socket without a peer gives.
     */
    method OnWritable(c: Channel, ghost i: nat, room: nat, grant: bool, now: u32)
      requires Valid() && i < |ring| && ring[i] == c
      modifies `head, `ring, `live, `notices, c, ring`next, ring`prev, loop, loop.events
      ensures Valid() && OthersKept(c.fd, old(loop.events[..]))
      ensures old(Attended() && (c.bound || early > 0)) ==> Attended()
      ensures c in ring ==>
                && ring == old(ring)
                && var waits := !old(c.connected) && !c.upstream;
                   var size := if waits || !old(c.joined) then 0 else Min(room, |old(c.outQueue)|);
                && c.outQueue == old(c.outQueue)[size..]
                && notices == old(notices) + (if size > 0 then [Called(old(c.bound), Sent(c, size))] else [])
                && (c.connected && c.outQueue == [] ==> !c.sendEnabled)
                && (c.outQueue != [] ==> c.sendEnabled == old(c.sendEnabled))
      ensures c !in ring ==>
                && ring == old(ring)[..i] + old(ring)[i + 1..]
                && notices == old(notices) + (if old(c.bound) then [Closed(c)] else [])
                && (room == 0 || !old(c.joined) || !grant || c.fd >= loop.setsize)
      ensures notices == old(notices) + [Missing(c)] <==> old(Unheard(c, room, grant))
    {
      hide IsList, Agrees;
      Differ(notices, Closed(c), Missing(c));
      if !c.connected {
        if !c.upstream {
          assert c.outQueue[0..] == c.outQueue;
          return;
        }
        var stands := Handshake(c, i, grant);
        if !stands {
          return;
        }
      }
      var size := 0;
      if 0 < |c.outQueue| {
        size := if c.joined then Min(room, |c.outQueue|) else 0;
        if size <= 0 {
          Close(c, i);
          return;
        }
      }
      Differ(notices, Sent(c, size), Missing(c));
      Sending(c, size, now);
    }

    /** The rest of _write_callback, when `size` bytes have been written. */
    method Sending(c: Channel, size: nat, now: u32)
      requires Valid() && c in ring && size <= |c.outQueue| && (size == 0 ==> c.outQueue == [])
      modifies `notices, c`outQueue, c`lastInteraction, c`recvEnabled, c`sendEnabled, loop, loop.events
      ensures Valid() && OthersKept(c.fd, old(loop.events[..]))
      ensures old(Attended() && (c.bound || early > 0)) ==> Attended()
      ensures c.outQueue == old(c.outQueue)[size..]
      ensures notices == old(notices) + if size > 0 then [Called(c.bound, Sent(c, size))] else []
      ensures c.recvEnabled == old(c.recvEnabled) && c.sendEnabled == (old(c.sendEnabled) && c.outQueue != [])
    {
      hide IsList, Agrees;
      if size > 0 {
        c.lastInteraction := now;
        Drop(c, size);
      }
      if |c.outQueue| == 0 {
        if c.sendEnabled {
          Disable(c, Writable());
        }
      }
      if size > 0 {
        notices := notices + [Called(c.bound, Sent(c, size))];
      }
      if old(Attended() && (c.bound || early > 0)) {
        StillAttended(c);
      }
    }

    /** dataqueue_distill_data on the out queue */
    method Drop(c: Channel, size: nat)
      requires Agrees() && c in live && size <= |c.outQueue|
      modifies c`outQueue
      ensures Agrees() && c.outQueue == old(c.outQueue)[size..]
    {
      c.outQueue := c.outQueue[size..];
      OneChannel(c);
    }

    /** The body of the loop of _check_timeouts, for element `i` of the list. */
    method Visit(node: Channel, ghost i: nat, now: u32) returns (temp: Channel)
      requires Valid() && i < |ring| && ring[i] == node
      modifies `head, `ring, `live, `notices, node, ring`next, ring`prev, loop, loop.events
      ensures Valid() && temp == old(ring)[Succ(i, |old(ring)|)]
      ensures old(Attended()) ==> Attended()
      ensures ring == if old(Expired(node, now)) then old(ring)[..i] + old(ring)[i + 1..] else old(ring)
      ensures notices == old(notices) + if old(Expired(node, now) && node.bound) then [Closed(node)] else []
    {
      hide Agrees;
      temp := node.next;
      if Overdue(node.timeouts, node.connected, node.lastInteraction, now) {
        Close(node, i);
      }
    }

    /** A sweep over the list `was` that has come to element `k`. */
    ghost predicate Sweeping(was: seq<Channel>, dead: seq<bool>, bound: seq<bool>, k: nat, now: u32)
      reads `ring, was`timeouts, was`connected, was`lastInteraction, was`bound
    {
      && |dead| == |was| == |bound| && k <= |was|
      && (forall i, j :: 0 <= i < j < |was| ==> was[i] != was[j])
      && ring == Swept(was, dead, k)
      && (forall j :: 0 <= j < |ring| ==> ring[j] in was)
      && forall j :: k <= j < |was| ==> dead[j] == Expired(was[j], now) && bound[j] == was[j].bound
    }

    /** The next channel of a sweep. */
    method VisitNext(node: Channel, now: u32, ghost was: seq<Channel>, ghost dead: seq<bool>, ghost bound: seq<bool>,
                     ghost k: nat)
      returns (temp: Channel)
      requires Valid() && Sweeping(was, dead, bound, k, now) && k < |was| && was[k] == node
      modifies `head, `ring, `live, `notices, node, ring`next, ring`prev, loop, loop.events
      ensures Valid() && Sweeping(was, dead, bound, k + 1, now)
      ensures old(Attended()) ==> Attended()
      ensures k + 1 < |was| ==> temp == was[k + 1]
      ensures |was| == 1 ==> temp == was[0]
      ensures notices == old(notices) + if dead[k] && bound[k] then [Closed(was[k])] else []
    {
      hide Valid, Agrees, IsList, Linked, Swept, Overdue, Expired;
      ghost var i := SweepStep(was, dead, k);
      temp := Visit(node, i, now);
    }

    /** What the kernel watches for a channel, and that it watches for room while data waits. */
    lemma Watched(c: Channel)
      requires Valid() && c in ring
      ensures c.fd in loop.kernel <==> c.recvEnabled || c.sendEnabled
      ensures c.fd in loop.kernel ==> loop.kernel[c.fd] == Mask(c.recvEnabled, c.sendEnabled) && c.fd <= loop.maxfd
      ensures c.outQueue != [] && !c.refused ==> c.fd in loop.kernel && loop.kernel[c.fd].write
    {
      hide IsList;
      assert Tracks(c);
    }

    lemma SweepBegins(now: u32)
      requires Valid() && head != null
      ensures Sweeping(ring, Dead(ring, now), Bound(ring), 0, now)
    {
      hide Valid, Agrees, IsList, Linked, Swept, Overdue, Expired;
      Ends();
      SweepStart(ring, Dead(ring, now), Bound(ring));
    }

    lemma SweepSoFar(was: seq<Channel>, dead: seq<bool>, bound: seq<bool>, k: nat, now: u32)
      requires Sweeping(was, dead, bound, k, now)
      ensures |dead| == |was| && k <= |was| && ring == Swept(was, dead, k)
      ensures forall j :: 0 <= j < |ring| ==> ring[j] in was
    {
      hide Swept, Expired;
    }

    lemma Ends()
      requires Valid() && head != null
      ensures ring != [] && head == ring[0] && head.prev == ring[|ring| - 1]
      ensures forall i, j :: 0 <= i < j < |ring| ==> ring[i] != ring[j]
    {
      assert ring[0].prev == ring[Pred(0, |ring|)];
    }

    /** _check_timeouts */
    method CheckTimeouts(now: u32)
      requires Valid() && head != null
      modifies `head, `ring, `live, `notices, ring, loop, loop.events
      ensures Valid()
      ensures old(Attended()) ==> Attended()
      ensures var was, v := old(ring), Visited(|old(ring)|);
              && ring == Swept(was, old(Dead(ring, now)), v)
              && notices == old(notices) + Notices(was, old(Bound(ring)), old(Dead(ring, now)), v)
      ensures forall j :: 0 <= j < |ring| ==> ring[j] in old(ring)
    {
      hide Valid, Agrees, IsList, Linked, Swept, Notices, Overdue, Expired, Sweeping, Dead, Bound;
      ghost var was, dead, bound, v := ring, Dead(ring, now), Bound(ring), Visited(|ring|);
      ghost var k := 0;
      Ends();
      var tail := head.prev;
      var node := head;
      var again := true;
      SweepStart(was, dead, bound);
      SweepBegins(now);
      while again
        invariant Valid() && Sweeping(was, dead, bound, k, now)
        invariant k <= v && (again <==> k < v) && (again ==> node == was[k])
        invariant old(Attended()) ==> Attended()
        invariant notices == old(notices) + Notices(was, bound, dead, k)
        decreases v - k
      {
        NoticesNext(was, bound, dead, k);
        SweepSoFar(was, dead, bound, k, now);
        node := VisitNext(node, now, was, dead, bound, k);
        again := node != tail;
        k := k + 1;
      }
      SweepSoFar(was, dead, bound, k, now);
    }

    /** channel_crond */
    method Crond(now: u32)
      requires Valid()
      modifies `head, `ring, `live, `notices, ring, loop, loop.events
      ensures Valid()
      ensures old(Attended()) ==> Attended()
      ensures var was, v := old(ring), Visited(|old(ring)|);
              && ring == Swept(was, old(Dead(ring, now)), v)
              && notices == old(notices) + Notices(was, old(Bound(ring)), old(Dead(ring, now)), v)
      ensures forall j :: 0 <= j < |ring| ==> ring[j] in old(ring)
    {
      if head != null {
        CheckTimeouts(now);
      }
    }

    /** Nobody but channels on `fds` has been told anything or has gone. */
    twostate predicate OnlyOn(fds: set<nat>)
      reads this
    {
      && |old(notices)| <= |notices| && notices[..|old(notices)|] == old(notices)
      && (forall j :: |old(notices)| <= j < |notices| ==> notices[j].channel.fd in fds)
      && (forall j :: 0 <= j < |ring| ==> ring[j] in old(ring))
      && forall j :: 0 <= j < |old(ring)| ==> old(ring)[j] in ring || old(ring)[j].fd in fds
    }

    /** The channel that the read callback of `fd` is given is a live one. */
    method CallRead(f: Fired)
      requires Valid() && f.fd < loop.setsize
      requires loop.events[f.fd].mask.read && loop.events[f.fd].rproc == ReadCallback
      modifies `head, `ring, `live, `notices, ring, loop, loop.events
      ensures Valid() && OnlyOn({f.fd}) && (old(Attended()) ==> Attended())
    {
      hide IsList;
      assert Belongs(f.fd);
      var c := loop.events[f.fd].data.value;
      assert Tracks(c) && (Attended() && early == 0 ==> Heard(c));
      ghost var i :| 0 <= i < |ring| && ring[i] == c;
      hide Agrees, Valid, Attended;
      OnReadable(c, i, f.input, f.grant, f.now);
    }

    method CallWrite(f: Fired)
      requires Valid() && f.fd < loop.setsize
      requires loop.events[f.fd].mask.write && loop.events[f.fd].wproc == WriteCallback
      modifies `head, `ring, `live, `notices, ring, loop, loop.events
      ensures Valid() && OnlyOn({f.fd}) && (old(Attended()) ==> Attended())
      ensures old(loop.events[f.fd].data).Some?
      ensures var c := old(loop.events[f.fd].data.value);
              notices == old(notices) + [Missing(c)] <==> old(Unheard(c, f.room, f.grant))
    {
      hide IsList;
      assert Belongs(f.fd);
      var c := loop.events[f.fd].data.value;
      assert Tracks(c) && (Attended() && early == 0 ==> Heard(c));
      ghost var i :| 0 <= i < |ring| && ring[i] == c;
      hide Agrees, Valid, Attended;
      OnWritable(c, i, f.room, f.grant, f.now);
    }

    /**
      The body of aeProcessEvents for one fired event.  The mask is looked at again before the write callback:
      the read callback, or the handler that it called, may have closed the channel, and even have opened
      another on the same descriptor.
     */
    method Dispatch(f: Fired)
      requires Valid() && f.fd < loop.setsize
      modifies this, ring, loop, loop.events
      ensures Valid() && (old(Attended()) ==> Attended())
      ensures forall j :: 0 <= j < |ring| ==> ring[j] in old(ring) || fresh(ring[j])
      ensures f.onRead == [] && f.onWrite == [] ==> OnlyOn({f.fd})
    {
      hide IsList, Attended;
      var rfired := false;
      if loop.events[f.fd].mask.read && f.mask.read {
        rfired := true;
        if loop.events[f.fd].rproc == ReadCallback {
          CallRead(f);
        }
        ObeyAll(f.onRead);
      }
      if loop.events[f.fd].mask.write && f.mask.write {
        if !rfired || loop.events[f.fd].wproc != loop.events[f.fd].rproc {
          if loop.events[f.fd].wproc == WriteCallback {
            CallWrite(f);
          }
          ObeyAll(f.onWrite);
        }
      }
    }

    /** aeProcessEvents, after the wait. */
    method Process(fired: seq<Fired>) returns (processed: nat)
      requires Valid() && forall f :: f in fired ==> f.fd < loop.setsize
      modifies this, ring, loop, loop.events
      ensures Valid() && processed == |fired| && (old(Attended()) ==> Attended())
      ensures forall j :: 0 <= j < |ring| ==> ring[j] in old(ring) || fresh(ring[j])
      ensures (forall f :: f in fired ==> f.onRead == [] && f.onWrite == []) ==> OnlyOn(set f | f in fired :: f.fd)
    {
      hide Valid, Attended;
      processed := 0;
      for j := 0 to |fired|
        invariant Valid() && processed == j && (old(Attended()) ==> Attended())
        invariant forall k :: 0 <= k < |ring| ==> ring[k] in old(ring) || fresh(ring[k])
        invariant (forall f :: f in fired ==> f.onRead == [] && f.onWrite == []) ==> OnlyOn(set f | f in fired :: f.fd)
      {
        Dispatch(fired[j]);
        processed := processed + 1;
      }
    }

    /**
      Data sent on a channel whose bind has joined the socket and was then refused: the event that this
      enables finds no handler.
     */
    method SendUnheard(c: Channel, data: seq<byte>, room: nat, now: u32)
      requires Valid() && c in ring && 0 <= c.fd < loop.setsize
      requires c.upstream && c.joined && !c.bound && data != [] && room > 0
      modifies this, ring, loop, loop.events
      ensures Valid() && notices == old(notices) + [Missing(c)] && early == old(early) + 1
    {
      hide IsList, Attended;
      var ok := Send(c, data, true);
      assert Tracks(c);
      CallWrite(Fired.Fired(c.fd, Writable(), [], room, true, now, [], []));
    }

    /** An element of the list, counting round from the head. */
    method Pick(steps: nat) returns (c: Channel?, ghost k: nat)
      requires Valid()
      ensures c == null <==> ring == []
      ensures c != null ==> k < |ring| && ring[k] == c
    {
      hide Agrees;
      c, k := head, 0;
      if head != null {
        for j := 0 to steps
          invariant c != null && k < |ring| && ring[k] == c
        {
          c, k := c.next, Succ(k, |ring|);
        }
      }
    }

    lemma LoopValid()
      requires Valid()
      ensures loop.Valid()
    {
      hide IsList;
    }

    /** Whether a channel has the descriptor. */
    method Owned(fd: nat) returns (owned: bool)
      requires Valid()
      ensures !owned ==> forall x :: x in ring ==> x.fd != fd
    {
      hide Agrees;
      if head == null {
        return false;
      }
      var node, more := head, true;
      ghost var k := 0;
      while more
        invariant k <= |ring| && (more <==> k < |ring|) && (more ==> ring[k] == node)
        invariant forall j :: 0 <= j < k ==> ring[j].fd != fd
        decreases |ring| - k
      {
        if node.fd == fd {
          return true;
        }
        node := node.next;
        more := node != head;
        k := k + 1;
      }
      owned := false;
    }

    /** One deed; those that the application or the kernel could not do are passed over. */
    method Obey(deed: Deed)
      requires Valid()
      modifies this, ring, loop, loop.events
      ensures Valid() && (old(Attended()) ==> Attended())
      ensures forall j :: 0 <= j < |ring| ==> ring[j] in old(ring) || fresh(ring[j])
    {
      hide Agrees, IsList, Attended;
      match deed {
        case Arrive(fd, upstream) =>
          var owned := Owned(fd);
          LoopValid();
          var registered := loop.Registered(fd);
          if !owned && !registered {
            var c := Create(fd, upstream);
          }
        case Watch(fd, mask, grant) =>
          var owned := Owned(fd);
          if !owned && mask != Nothing() {
            var r := Register(fd, mask, grant);
          }
        case Forget(fd, mask) =>
          var owned := Owned(fd);
          if !owned && fd < loop.setsize {
            Unregister(fd, mask);
          }
        case _ =>
          ObeyAt(deed);
      }
    }

    /** The deeds about one channel. */
    method ObeyAt(deed: Deed)
      requires Valid() && (deed.BindAt? || deed.SendAt? || deed.CloseAt?)
      modifies this, ring, loop, loop.events
      ensures Valid() && (old(Attended()) ==> Attended())
      ensures forall j :: 0 <= j < |ring| ==> ring[j] in old(ring)
    {
      hide Agrees, IsList, Attended;
      var c, k := Pick(deed.at);
      if c != null {
        assert c in ring;
        var ok;
        if deed.BindAt? {
          ok := Bind(c, deed.timeouts, deed.joined, deed.grant, deed.now);
        } else if deed.SendAt? {
          ok := Send(c, deed.data, deed.grant);
        } else {
          Close(c, k);
        }
      }
    }

    method ObeyAll(deeds: seq<Deed>)
      requires Valid()
      modifies this, ring, loop, loop.events
      ensures Valid() && (old(Attended()) ==> Attended())
      ensures forall j :: 0 <= j < |ring| ==> ring[j] in old(ring) || fresh(ring[j])
      ensures deeds == [] ==> ring == old(ring) && notices == old(notices)
    {
      hide Valid, Attended;
      for k := 0 to |deeds|
        invariant Valid() && (old(Attended()) ==> Attended())
        invariant forall j :: 0 <= j < |ring| ==> ring[j] in old(ring) || fresh(ring[j])
        invariant k == 0 ==> ring == old(ring) && notices == old(notices)
      {
        Obey(deeds[k]);
      }
    }

    method Perform(command: Command)
      requires Valid()
      modifies this, ring, loop, loop.events
      ensures Valid() && (old(Attended()) ==> Attended())
      ensures forall j :: 0 <= j < |ring| ==> ring[j] in old(ring) || fresh(ring[j])
    {
      hide IsList, Attended;
      match command {
        case Do(deed) =>
          Obey(deed);
        case Fire(fired) =>
          if fired.fd < loop.setsize {
            Dispatch(fired);
          }
        case Tick(now) =>
          Crond(now);
      }
    }
  }

  /**
    A client that does not look at the result of channel_bind, and sends: the kernel has refused to watch the
    socket once, and does not the next time.
   */
  method SendAfterRefusal(setsize: nat, fd: nat, timeouts: u32, data: seq<byte>, room: nat, now: u32)
    returns (net: Net, c: Channel)
    requires fd < setsize && data != [] && room > 0
    ensures fresh(net) && net.Valid() && net.notices == [Missing(c)] && net.early == 1
  {
    var loop := new EventLoop<Channel>(setsize);
    net := new Net(loop);
    c := net.Create(fd, true);
    var ok := net.Bind(c, timeouts, true, false, now);
    assert !ok;
    net.SendUnheard(c, data, room, now);
  }

  /**
    Any history: from the loop that evnet_init leaves, with or without its pipe, whatever comes in, is
    bound, sent, closed, fired or swept, and whatever other modules register, in whatever order and with
    whatever answers of the kernel, list and registry agree at the end.
   */
  method Serve(setsize: nat, pipe: Option<nat>, grant: bool, history: seq<Command>) returns (net: Net)
    ensures fresh(net) && net.Valid() && net.Attended()
    ensures forall c :: c in net.ring ==>
              && (c.fd in net.loop.kernel <==> c.recvEnabled || c.sendEnabled)
              && (c.fd in net.loop.kernel ==>
                  net.loop.kernel[c.fd] == Mask(c.recvEnabled, c.sendEnabled) && c.fd <= net.loop.maxfd)
              && (c.outQueue != [] && !c.refused ==> c.fd in net.loop.kernel && net.loop.kernel[c.fd].write)
  {
    hide Net.Valid, Net.Attended;
    var loop := new EventLoop<Channel>(setsize);
    if pipe.Some? {
      var r := loop.CreateFileEvent(pipe.value, Readable(), Elsewhere, None, grant);
    }
    net := new Net(loop);
    for j := 0 to |history|
      invariant fresh(net) && net.loop == loop && fresh(loop) && fresh(loop.events) && net.Valid() && net.Attended()
      invariant forall k :: 0 <= k < |net.ring| ==> fresh(net.ring[k])
    {
      net.Perform(history[j]);
    }
    forall c | c in net.ring
      ensures (c.fd in net.loop.kernel <==> c.recvEnabled || c.sendEnabled)
      ensures c.fd in net.loop.kernel ==>
              net.loop.kernel[c.fd] == Mask(c.recvEnabled, c.sendEnabled) && c.fd <= net.loop.maxfd
      ensures c.outQueue != [] && !c.refused ==> c.fd in net.loop.kernel && net.loop.kernel[c.fd].write
    {
      net.Watched(c);
    }
  }

  lemma SweepStart(was: seq<Channel>, dead: seq<bool>, bound: seq<bool>)
    requires |dead| == |was| == |bound|
    ensures Swept(was, dead, 0) == was && Notices(was, bound, dead, 0) == []
  {
  }

  /** What one visit does to the list, in the middle of a sweep. */
  lemma SweepStep<T>(was: seq<T>, dead: seq<bool>, k: nat) returns (i: nat)
    requires |dead| == |was| && k < |was|
    ensures var ring := Swept(was, dead, k);
            && i < |ring| && ring[i] == was[k]
            && Swept(was, dead, k + 1) == (if dead[k] then ring[..i] + ring[i + 1..] else ring)
            && (k + 1 < |was| ==> ring[Succ(i, |ring|)] == was[k + 1])
            && (|was| == 1 ==> ring[Succ(i, |ring|)] == was[0])
  {
    i := |Unmarked(was[..k], dead[..k])|;
    UnmarkedSnoc(was, dead, k);
    assert was[k..] == [was[k]] + was[k + 1..];
  }
}
