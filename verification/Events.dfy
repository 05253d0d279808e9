/**
  Logs of parser callbacks.  A data callback may deliver a run of bytes in any number of pieces, so
  logs are compared in a normal form in which adjacent pieces of one kind are merged.
 */
module Events {
  import opened Common

  datatype Event<K, N> = Data(kind: K, bytes: seq<byte>) | Notice(note: N)

  type Log<K, N> = seq<Event<K, N>>

  /** Append one callback to a log in normal form. */
  function Push<K(==), N>(log: Log<K, N>, e: Event<K, N>): Log<K, N> {
    if e.Data? && log != [] && log[|log| - 1].Data? && log[|log| - 1].kind == e.kind then
      log[..|log| - 1] + [Data(e.kind, log[|log| - 1].bytes + e.bytes)]
    else
      log + [e]
  }

  function PushAll<K(==), N>(log: Log<K, N>, es: Log<K, N>): Log<K, N> {
    if es == [] then log else Push(PushAll(log, es[..|es| - 1]), es[|es| - 1])
  }

  /** The normal form of a log. */
  function Merged<K(==), N>(log: Log<K, N>): Log<K, N> { PushAll([], log) }

  lemma PushTwice<K, N>(log: Log<K, N>, kind: K, x: seq<byte>, y: seq<byte>)
    ensures Push(Push(log, Data(kind, x)), Data(kind, y)) == Push(log, Data(kind, x + y))
  {
    var once := Push(log, Data(kind, x));
    if log != [] && log[|log| - 1].Data? && log[|log| - 1].kind == kind {
      assert once[..|once| - 1] == log[..|log| - 1];
      assert (log[|log| - 1].bytes + x) + y == log[|log| - 1].bytes + (x + y);
    } else {
      assert once[..|once| - 1] == log;
    }
  }

  lemma PushAllNothing<K, N>(log: Log<K, N>)
    ensures PushAll(log, []) == log
  {
  }

  lemma PushAllOne<K, N>(log: Log<K, N>, e: Event<K, N>)
    ensures PushAll(log, [e]) == Push(log, e)
  {
    assert [e][..0] == [];
  }

  lemma {:induction false} PushAllConcat<K, N>(log: Log<K, N>, a: Log<K, N>, b: Log<K, N>)
    ensures PushAll(log, a + b) == PushAll(PushAll(log, a), b)
    decreases |b|
  {
    if b == [] {
      assert a + b == a;
    } else {
      assert (a + b)[..|a + b| - 1] == a + b[..|b| - 1];
      PushAllConcat(log, a, b[..|b| - 1]);
    }
  }

  lemma MergedSnoc<K, N>(log: Log<K, N>, e: Event<K, N>)
    ensures Merged(log + [e]) == Push(Merged(log), e)
  {
    PushAllConcat([], log, [e]);
    PushAllOne(Merged(log), e);
  }
}
