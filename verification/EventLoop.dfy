/**
  The file-event registry of event.c over epoll: a mask for every descriptor, the kernel's interest set,
  and the highest descriptor in use.
 */
module EventLoops {
  import opened Common

  /** AE_READABLE and AE_WRITABLE */
  datatype Mask = Mask(read: bool, write: bool)

  function Nothing(): Mask { Mask(false, false) }

  function Readable(): Mask { Mask(true, false) }

  function Writable(): Mask { Mask(false, true) }

  function Or(m: Mask, n: Mask): Mask { Mask(m.read || n.read, m.write || n.write) }

  function Without(m: Mask, n: Mask): Mask { Mask(m.read && !n.read, m.write && !n.write) }

  /** The functions registered: those of channel.c, or another module's. */
  datatype Proc = ReadCallback | WriteCallback | Elsewhere

  datatype FileEvent<D> = FileEvent(mask: Mask, rproc: Proc, wproc: Proc, data: Option<D>)

  datatype Op = Add | Mod | Del

  class EventLoop<D> {
    const setsize: nat
    const events: array<FileEvent<D>>
    var maxfd: int
    /** The interest set of the epoll instance. */
    var kernel: map<int, Mask>

    /** aeCreateEventLoop */
    constructor (setsize: nat)
      ensures Valid() && fresh(events) && this.setsize == setsize && maxfd == -1 && kernel == map[]
      ensures forall fd :: 0 <= fd < setsize ==> events[fd].mask == Nothing()
    {
      this.setsize := setsize;
      events := new FileEvent<D>[setsize](_ => FileEvent(Nothing(), Elsewhere, Elsewhere, None));
      maxfd, kernel := -1, map[];
    }

    /** The highest descriptor with a mask, or -1. */
    ghost predicate IsTop(top: int)
      reads this, events
    {
      && -1 <= top < events.Length
      && (top >= 0 ==> events[top].mask != Nothing())
      && forall fd :: top < fd < events.Length ==> events[fd].mask == Nothing()
    }

    /** The kernel watches what the masks say. */
    ghost predicate KernelAgrees()
      reads this, events
    {
      && (forall fd :: fd in kernel ==> 0 <= fd < events.Length && events[fd].mask != Nothing())
      && forall fd :: 0 <= fd < events.Length && events[fd].mask != Nothing() ==>
         fd in kernel && kernel[fd] == events[fd].mask
    }

    ghost predicate Valid()
      reads this, events
    {
      events.Length == setsize && IsTop(maxfd) && KernelAgrees()
    }

    /** epoll_ctl; `grant` is false when the kernel has no memory or no watch left. */
    method EpollCtl(op: Op, fd: int, mask: Mask, grant: bool) returns (r: int)
      modifies `kernel
      ensures var done := grant && (op.Add? <==> fd !in old(kernel));
              && r == (if done then 0 else -1)
              && kernel == if !done then old(kernel)
                           else if op.Del? then old(kernel) - {fd}
                           else old(kernel)[fd := mask]
    {
      if !grant || (op.Add? != (fd !in kernel)) {
        return -1;
      }
      r := 0;
      kernel := if op.Del? then kernel - {fd} else kernel[fd := mask];
    }

    /** aeApiAddEvent */
    method ApiAdd(fd: int, mask: Mask, grant: bool) returns (r: int)
      requires events.Length == setsize && 0 <= fd < setsize && KernelAgrees()
      modifies `kernel
      ensures r == (if grant then 0 else -1)
      ensures kernel == if grant then old(kernel)[fd := Or(mask, events[fd].mask)] else old(kernel)
    {
      var op := if events[fd].mask == Nothing() then Add else Mod;
      r := EpollCtl(op, fd, Or(mask, events[fd].mask), grant);
    }

    /** aeApiDelEvent */
    method ApiDel(fd: int, mask: Mask)
      requires events.Length == setsize && 0 <= fd < setsize && fd in kernel
      modifies `kernel
      ensures var left := Without(events[fd].mask, mask);
              kernel == if left == Nothing() then old(kernel) - {fd} else old(kernel)[fd := left]
    {
      var left := Without(events[fd].mask, mask);
      var r;
      if left != Nothing() {
        r := EpollCtl(Mod, fd, left, true);
      } else {
        r := EpollCtl(Del, fd, left, true);
      }
    }

    /**
      aeCreateFileEvent.  It fails for a descriptor outside the table and when the kernel refuses, never
      because table and kernel disagree.
     */
    method CreateFileEvent(fd: int, mask: Mask, proc: Proc, data: Option<D>, grant: bool) returns (r: int)
      requires Valid() && fd >= 0 && mask != Nothing()
      modifies this, events
      ensures Valid()
      ensures r == if fd < setsize && grant then 0 else -1
      ensures r != 0 ==> maxfd == old(maxfd) && kernel == old(kernel)
      ensures r == 0 ==> events[fd] == WithMask(old(events[fd]), mask, proc, data) && maxfd == Max(old(maxfd), fd)
      ensures forall k :: 0 <= k < setsize && (k != fd || r != 0) ==> events[k] == old(events[k])
    {
      if fd >= setsize {
        return -1;
      }
      r := ApiAdd(fd, mask, grant);
      if r == -1 {
        return;
      }
      var fe := events[fd].(mask := Or(events[fd].mask, mask));
      if mask.read {
        fe := fe.(rproc := proc);
      }
      if mask.write {
        fe := fe.(wproc := proc);
      }
      events[fd] := fe.(data := data);
      if fd > maxfd {
        maxfd := fd;
      }
      r := 0;
    }

    /** Whether anything is registered for a descriptor. */
    method Registered(fd: nat) returns (b: bool)
      requires Valid()
      ensures b <==> fd < setsize && events[fd].mask != Nothing()
    {
      b := fd < setsize && events[fd].mask != Nothing();
    }

    /** aeDeleteFileEvent */
    method DeleteFileEvent(fd: int, mask: Mask)
      requires Valid() && fd >= 0
      modifies this, events
      ensures Valid()
      ensures fd >= setsize ==> maxfd == old(maxfd)
      ensures fd < setsize ==> events[fd] == old(events[fd]).(mask := Without(old(events[fd]).mask, mask))
      ensures forall k :: 0 <= k < setsize && k != fd ==> events[k] == old(events[k])
      ensures maxfd <= old(maxfd) && (maxfd < old(maxfd) ==> fd == old(maxfd))
    {
      if fd >= setsize {
        return;
      }
      if events[fd].mask == Nothing() {
        return;
      }
      ghost var before := events[fd].mask;
      events[fd] := events[fd].(mask := Without(events[fd].mask, mask));
      ghost var left := events[fd].mask;
      if fd == maxfd && events[fd].mask == Nothing() {
        var j := maxfd - 1;
        while j >= 0 && events[j].mask == Nothing()
          invariant -1 <= j < maxfd
          invariant forall k :: j < k < setsize ==> events[k].mask == Nothing()
        {
          j := j - 1;
        }
        maxfd := j;
      }
      assert Without(left, mask) == left;
      ApiDel(fd, mask);
    }
  }

  function WithMask<D>(e: FileEvent<D>, mask: Mask, proc: Proc, data: Option<D>): FileEvent<D> {
    FileEvent(Or(e.mask, mask), if mask.read then proc else e.rproc, if mask.write then proc else e.wproc, data)
  }
}
