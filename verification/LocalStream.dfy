/** One proxied connection as a byte stream over channels of chunks. */
module LocalStream {
  import opened Net
  import opened Sequences
  import opened Utf8

  type Chunk = seq<Byte>

  datatype ReadResult = Pending | Ready(bytes: seq<Byte>)
  datatype WriteResult = WritePending | BrokenPipe | Written(count: nat)

  /** The reading half: chunks queued, whether their sender is gone, and the rest of a chunk read in part. */
  datatype Inbound = Inbound(queue: seq<Chunk>, senderGone: bool, partial: Option<(Chunk, nat)>)

  predicate Wf(s: Inbound) {
    s.partial.Some? ==> s.partial.value.1 < |s.partial.value.0|
  }

  function Concat(chunks: seq<Chunk>): seq<Byte> {
    if chunks == [] then [] else chunks[0] + Concat(chunks[1..])
  }

  /** The bytes still to be read. */
  function Rest(s: Inbound): seq<Byte>
    requires Wf(s)
  {
    (if s.partial.Some? then s.partial.value.0[s.partial.value.1..] else []) + Concat(s.queue)
  }

  /** Hands out the front of a chunk and keeps what is left of it. */
  function Serve(s: Inbound, chunk: Chunk, offset: nat, room: nat): (Inbound, ReadResult)
    requires offset < |chunk|
  {
    var n := Min(|chunk| - offset, room);
    (s.(partial := if offset + n < |chunk| then Some((chunk, offset + n)) else None),
     Ready(chunk[offset..offset + n]))
  }

  function Min(a: nat, b: nat): nat {
    if a < b then a else b
  }

  /** What a read does to the stream. Empty chunks are passed over. */
  function ReadStep(s: Inbound, room: nat): (Inbound, ReadResult)
    requires Wf(s)
    decreases |s.queue|
  {
    if s.partial.Some? then Serve(s, s.partial.value.0, s.partial.value.1, room)
    else if s.queue == [] then (s, if s.senderGone then Ready([]) else Pending)
    else if s.queue[0] == [] then ReadStep(s.(queue := s.queue[1..]), room)
    else Serve(s.(queue := s.queue[1..]), s.queue[0], 0, room)
  }

  lemma ServeConserves(s: Inbound, chunk: Chunk, offset: nat, room: nat)
    requires offset < |chunk|
    ensures var (s', r) := Serve(s, chunk, offset, room);
            && Wf(s') && r.Ready? && |r.bytes| <= room
            && chunk[offset..] + Concat(s.queue) == r.bytes + Rest(s')
  {
    var n := Min(|chunk| - offset, room);
    assert chunk[offset..] == chunk[offset..offset + n] + chunk[offset + n..];
    ConcatAssociates(chunk[offset..offset + n], chunk[offset + n..], Concat(s.queue));
  }

  /** No byte is lost, repeated or reordered by a read; no read is longer than its buffer. */
  lemma {:induction false} ReadConserves(s: Inbound, room: nat)
    requires Wf(s)
    ensures var (s', r) := ReadStep(s, room);
            && Wf(s')
            && (r.Pending? ==> Rest(s) == Rest(s') == [])
            && (r.Ready? ==> Rest(s) == r.bytes + Rest(s') && |r.bytes| <= room)
    decreases |s.queue|
  {
    hide Serve;
    if s.partial.Some? {
      ServeConserves(s, s.partial.value.0, s.partial.value.1, room);
    } else if s.queue == [] {
    } else if s.queue[0] == [] {
      ReadConserves(s.(queue := s.queue[1..]), room);
      assert Rest(s) == Rest(s.(queue := s.queue[1..]));
    } else {
      ServeConserves(s.(queue := s.queue[1..]), s.queue[0], 0, room);
      assert Rest(s) == s.queue[0][0..] + Concat(s.queue[1..]);
    }
  }

  /** With room to read into, a read returns nothing exactly at the end of the stream: sender gone, all bytes read. */
  lemma {:induction false} EmptyReadIsEof(s: Inbound, room: nat)
    requires Wf(s) && room > 0
    ensures ReadStep(s, room).1 == Ready([]) <==> s.senderGone && Rest(s) == []
    ensures ReadStep(s, room).1 == Pending <==> !s.senderGone && Rest(s) == []
    decreases |s.queue|
  {
    if s.partial.Some? {
    } else if s.queue != [] && s.queue[0] == [] {
      EmptyReadIsEof(s.(queue := s.queue[1..]), room);
      assert Rest(s) == Rest(s.(queue := s.queue[1..]));
    }
  }

  /** A read that leaves room has taken all of the chunk at the front, and of no other. */
  lemma {:induction false} ShortReadEndsAChunk(s: Inbound, room: nat)
    requires Wf(s)
    ensures var (s', r) := ReadStep(s, room);
            && (r.Ready? && |r.bytes| < room ==> s'.partial.None?)
            && (r.Ready? && r.bytes != [] && s.partial.Some? ==> r.bytes <= s.partial.value.0[s.partial.value.1..])
            && (r.Ready? && r.bytes != [] && s.partial.None? ==>
                  exists chunk :: chunk in s.queue && chunk != [] && r.bytes <= chunk)
    decreases |s.queue|
  {
    if s.partial.Some? {
      ServedIsPrefix(s, s.partial.value.0, s.partial.value.1, room);
    } else if s.queue != [] {
      assert forall chunk :: chunk in s.queue[1..] ==> chunk in s.queue;
      if s.queue[0] == [] {
        ShortReadEndsAChunk(s.(queue := s.queue[1..]), room);
      } else {
        assert s.queue[0] in s.queue && s.queue[0][0..] == s.queue[0];
        ServedIsPrefix(s.(queue := s.queue[1..]), s.queue[0], 0, room);
      }
    }
  }

  lemma ServedIsPrefix(s: Inbound, chunk: Chunk, offset: nat, room: nat)
    requires offset < |chunk|
    ensures var (s', r) := Serve(s, chunk, offset, room);
            r.Ready? && r.bytes <= chunk[offset..] && (|r.bytes| < room ==> s'.partial.None?)
  {
  }

  /** What can happen to the reading half: the stack sends a chunk or lets go of its end; the reader reads. */
  datatype Op = Push(chunk: Chunk) | CloseSender | Read(room: nat)

  datatype Transcript = Transcript(stream: Inbound, sent: seq<Byte>, got: seq<Byte>)

  function Perform(t: Transcript, op: Op): Transcript
    requires Wf(t.stream)
  {
    match op
    case Push(chunk) =>
      if t.stream.senderGone then t
      else t.(stream := t.stream.(queue := t.stream.queue + [chunk]), sent := t.sent + chunk)
    case CloseSender => t.(stream := t.stream.(senderGone := true))
    case Read(room) =>
      var (s, r) := ReadStep(t.stream, room);
      t.(stream := s, got := t.got + (if r.Ready? then r.bytes else []))
  }

  lemma {:induction false} ConcatAppend(chunks: seq<Chunk>, chunk: Chunk)
    ensures Concat(chunks + [chunk]) == Concat(chunks) + chunk
  {
    if chunks == [] {
      assert chunks + [chunk] == [chunk];
    } else {
      ConcatAppend(chunks[1..], chunk);
      assert (chunks + [chunk])[1..] == chunks[1..] + [chunk];
    }
  }

  lemma PerformKeeps(t: Transcript, op: Op)
    requires Wf(t.stream) && t.sent == t.got + Rest(t.stream)
    ensures Wf(Perform(t, op).stream) && Perform(t, op).sent == Perform(t, op).got + Rest(Perform(t, op).stream)
  {
    match op
    case Push(chunk) =>
      ConcatAppend(t.stream.queue, chunk);
    case CloseSender =>
    case Read(room) =>
      ReadConserves(t.stream, room);
      var (s, r) := ReadStep(t.stream, room);
      if r.Ready? {
        assert t.got + (r.bytes + Rest(s)) == (t.got + r.bytes) + Rest(s);
      } else {
        assert t.got + [] == t.got;
      }
  }

  function PerformAll(t: Transcript, ops: seq<Op>): (u: Transcript)
    requires Wf(t.stream) && t.sent == t.got + Rest(t.stream)
    ensures Wf(u.stream)
    decreases |ops|
  {
    PerformKeeps(t, if ops == [] then CloseSender else ops[0]);
    if ops == [] then t else PerformAll(Perform(t, ops[0]), ops[1..])
  }

  const EMPTY := Transcript(Inbound([], false, None), [], [])

  /**
   * Whatever the chunks, empty ones included, and whatever the buffers, what the reader has got is a
   * prefix of what was sent, and the rest is still to come.
   */
  lemma {:induction false} Fidelity(t: Transcript, ops: seq<Op>)
    requires Wf(t.stream) && t.sent == t.got + Rest(t.stream)
    ensures var u := PerformAll(t, ops);
            && Wf(u.stream)
            && u.sent == u.got + Rest(u.stream)
            && t.got <= u.got
    decreases |ops|
  {
    if ops != [] {
      PerformKeeps(t, ops[0]);
      Fidelity(Perform(t, ops[0]), ops[1..]);
    }
  }

  /** A reader that meets the end of the stream has everything that was sent. */
  lemma EofMeansComplete(ops: seq<Op>, room: nat)
    requires room > 0
    requires ReadStep(PerformAll(EMPTY, ops).stream, room).1 == Ready([])
    ensures PerformAll(EMPTY, ops).got == PerformAll(EMPTY, ops).sent
  {
    Fidelity(EMPTY, ops);
    EmptyReadIsEof(PerformAll(EMPTY, ops).stream, room);
  }

  /** The ends of the channels as a loop that wakes now would find them. */
  datatype Sight = Sight(inbound: seq<Chunk>, inboundClosed: bool, outbound: seq<Chunk>, outboundClosed: bool)

  class LocalStream {
    var inbound: seq<Chunk>
    var inboundGone: bool
    var partial: Option<(Chunk, nat)>
    /** The reader has let go of its end. */
    var inboundClosed: bool
    var outbound: seq<Chunk>
    /** Closed by a shutdown or the drop. */
    var outboundClosed: bool
    /** The stack has let go of its receiving end. */
    var peerGone: bool
    const depth: nat
    /** How often the stack loop has been woken, and what there was to see each time. */
    var wakes: nat
    ghost var sights: seq<Sight>

    ghost function View(): Inbound
      reads this
    {
      Inbound(inbound, inboundGone, partial)
    }

    ghost function Seen(): Sight
      reads this
    {
      Sight(inbound, inboundClosed, outbound, outboundClosed)
    }

    method Wake()
      modifies this`wakes, this`sights
      ensures wakes == old(wakes) + 1 && sights == old(sights) + [Seen()]
    {
      wakes := wakes + 1;
      sights := sights + [Seen()];
    }

    constructor (depth: nat)
      ensures View() == Inbound([], false, None) && outbound == [] && !outboundClosed && !peerGone && wakes == 0
      ensures this.depth == depth
    {
      inbound, inboundGone, partial, inboundClosed := [], false, None, false;
      outbound, outboundClosed, peerGone := [], false, false;
      wakes, sights := 0, [];
      this.depth := depth;
    }

    method PollRead(room: nat) returns (r: ReadResult)
      requires Wf(View())
      modifies this`inbound, this`partial, this`wakes, this`sights
      ensures (View(), r) == ReadStep(old(View()), room)
      // One wakeup for each chunk taken off the channel.
      ensures wakes - old(wakes) == |old(inbound)| - |inbound|
      // The last of them when the slots are free.
      ensures wakes > old(wakes) ==> sights != [] && sights[|sights| - 1] == Seen()
    {
      if partial.Some? {
        var (chunk, offset) := partial.value;
        partial := None;
        var n := Min(|chunk| - offset, room);
        if offset + n < |chunk| {
          partial := Some((chunk, offset + n));
        }
        return Ready(chunk[offset..offset + n]);
      }
      while inbound != []
        invariant partial.None?
        invariant ReadStep(View(), room) == ReadStep(old(View()), room)
        invariant wakes - old(wakes) == |old(inbound)| - |inbound|
        invariant wakes > old(wakes) ==> sights != [] && sights[|sights| - 1] == Seen()
        decreases |inbound|
      {
        var chunk := inbound[0];
        inbound := inbound[1..];
        if chunk == [] {
          Wake();
          continue;
        }
        var n := Min(|chunk|, room);
        if n < |chunk| {
          partial := Some((chunk, n));
        }
        Wake();
        return Ready(chunk[0..n]);
      }
      return if inboundGone then Ready([]) else Pending;
    }

    method PollWrite(buf: seq<Byte>) returns (r: WriteResult)
      modifies this`outbound, this`wakes, this`sights
      ensures r == if outboundClosed || peerGone then BrokenPipe
                   else if |old(outbound)| >= depth then WritePending
                   else Written(|buf|)
      ensures outbound == old(outbound) + (if r.Written? then [buf] else [])
      ensures wakes == old(wakes) + (if r.Written? then 1 else 0)
      ensures sights == old(sights) + (if r.Written? then [Seen()] else [])
    {
      if outboundClosed || peerGone {
        return BrokenPipe;
      }
      if |outbound| >= depth {
        return WritePending;
      }
      outbound := outbound + [buf];
      Wake();
      return Written(|buf|);
    }

    method PollShutdown()
      modifies this`outboundClosed, this`wakes, this`sights
      ensures outboundClosed && wakes == old(wakes) + 1 && sights == old(sights) + [Seen()]
    {
      outboundClosed := true;
      Wake();
    }

    /** The drop: both halves closed, and only then the wakeup. */
    method Drop()
      modifies this`outboundClosed, this`inboundClosed, this`wakes, this`sights
      ensures outboundClosed && inboundClosed && wakes == old(wakes) + 1 && sights == old(sights) + [Seen()]
    {
      outboundClosed := true;
      inboundClosed := true;
      Wake();
    }
  }
}
