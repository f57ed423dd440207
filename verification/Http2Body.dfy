/** HTTP/2 bodies as byte streams: the reading adapter over received DATA frames, and the writing
    adapter that makes them. */
module Http2Body {
  import opened Prelude
  import opened Bytes
  import opened Seqs

  type Chunks = seq<seq<byte>>

  /** What polling the body comes back with before its end. */
  datatype BodyEvent = NotReady | Chunk(data: seq<byte>) | Broken

  datatype ReadResult = ReadPending | ReadReady(bytes: seq<byte>) | ReadFailed

  /** The chunks among the events. */
  function ChunksOf(events: seq<BodyEvent>): Chunks {
    if events == [] then []
    else if events[0].Chunk? then [events[0].data] + ChunksOf(events[1..])
    else ChunksOf(events[1..])
  }

  function BodyOf(events: seq<BodyEvent>): seq<byte> {
    Flatten(ChunksOf(events))
  }

  /** An `h2::RecvStream` with its flow control. */
  class RecvStream {
    var events: seq<BodyEvent>
    var inFlight: nat
    ghost var polled: seq<byte>
    ghost var released: nat

    constructor (events: seq<BodyEvent>)
      ensures this.events == events && inFlight == 0 && polled == [] && released == 0
    {
      this.events, inFlight, polled, released := events, 0, [], 0;
    }

    /** None at the end of the body. */
    method PollData() returns (event: Option<BodyEvent>)
      modifies this
      ensures released == old(released)
      ensures old(events) == [] ==> event == None && events == [] && polled == old(polled) && inFlight == old(inFlight)
      ensures old(events) != [] ==>
                && event == Some(old(events)[0]) && events == old(events)[1..]
                && polled == old(polled) + (if event.value.Chunk? then event.value.data else [])
                && inFlight == old(inFlight) + (if event.value.Chunk? then |event.value.data| else 0)
    {
      if events == [] {
        return None;
      }
      event, events := Some(events[0]), events[1..];
      if event.value.Chunk? {
        polled, inFlight := polled + event.value.data, inFlight + |event.value.data|;
      }
    }

    /** Refused when more is released than is in flight. */
    method ReleaseCapacity(size: nat) returns (ok: bool)
      modifies `inFlight, `released
      ensures ok == (size <= old(inFlight))
      ensures inFlight == (if ok then old(inFlight) - size else old(inFlight))
      ensures released == (if ok then old(released) + size else old(released))
    {
      ok := size <= inFlight;
      if ok {
        inFlight, released := inFlight - size, released + size;
      }
    }
  }

  /** What polling the response comes back with while it is not there. */
  datatype Waiting = StillWaiting | ResponseBroken

  class RecvAdapter {
    var responded: bool           // is `inner` the body already, or still the response future
    var waits: seq<Waiting>
    const stream: RecvStream
    var pending: seq<byte>
    ghost const body: seq<byte>
    ghost var delivered: seq<byte>

    /** Every byte of the body is delivered, pending or unpolled, in that order; the capacity of all
        that was polled has been given back (section 5.2 of RFC 9113). */
    ghost predicate Valid()
      reads this, stream
    {
      && delivered + pending == stream.polled && stream.polled + BodyOf(stream.events) == body
      && stream.released == |stream.polled| && stream.inFlight == 0
    }

    constructor (waits: seq<Waiting>, events: seq<BodyEvent>)
      ensures Valid() && fresh(stream) && body == BodyOf(events) && delivered == []
      ensures !responded && this.waits == waits && stream.events == events && pending == []
    {
      responded, this.waits, pending, delivered, body := false, waits, [], [], BodyOf(events);
      stream := new RecvStream(events);
    }

    /** What a read with this much room comes back with. */
    ghost function Outcome(room: nat): ReadResult
      reads this, stream
    {
      if pending != [] then ReadReady(pending[..Min(|pending|, room)])
      else if !responded && waits != [] then (if waits[0].StillWaiting? then ReadPending else ReadFailed)
      else if stream.events == [] then ReadReady([])
      else
        match stream.events[0]
        case NotReady => ReadPending
        case Broken => ReadFailed
        case Chunk(data) => ReadReady(data[..Min(|data|, room)])
    }

    /** What it leaves pending. */
    ghost function Left(room: nat): seq<byte>
      reads this, stream
    {
      if pending != [] then pending[Min(|pending|, room)..]
      else if !responded && waits != [] then []
      else if stream.events != [] && stream.events[0].Chunk? then
        stream.events[0].data[Min(|stream.events[0].data|, room)..]
      else []
    }

    /** Bytes left over by an earlier read. */
    method TakePending(room: nat) returns (bytes: seq<byte>)
      requires Valid() && pending != []
      modifies `pending, `delivered
      ensures Valid() && bytes == old(pending)[..Min(|old(pending)|, room)]
      ensures pending == old(pending)[Min(|old(pending)|, room)..]
      ensures delivered == old(delivered) + bytes
    {
      var length := Min(|pending|, room);
      bytes := pending[..length];
      assert pending == bytes + pending[length..];
      delivered := delivered + bytes;
      pending := pending[length..];
    }

    /** The next event of the body: a chunk goes to the buffer, and what exceeds it stays pending. */
    method PollBody(room: nat) returns (r: ReadResult)
      requires Valid() && responded && pending == []
      modifies `pending, `delivered, stream
      ensures Valid() && r == old(Outcome(room)) && pending == old(Left(room))
      ensures delivered == if r.ReadReady? then old(delivered) + r.bytes else old(delivered)
      ensures stream.events == old(stream.events[Min(|stream.events|, 1)..])
    {
      var event := stream.PollData();
      if event.None? {
        return ReadReady([]);
      }
      match event.value {
        case NotReady => return ReadPending;
        case Broken => return ReadFailed;
        case Chunk(data) =>
          if |data| < room {
            r := ReadReady(data);
            delivered := delivered + data;
          } else {
            r := ReadReady(data[..room]);
            pending := pending + data[room..];
            delivered := delivered + data[..room];
            assert data == data[..room] + data[room..];
          }
          var ok := stream.ReleaseCapacity(|data|);
          if !ok {
            return ReadFailed;
          }
      }
    }

    /** Pending bytes go first; the body is polled one event at a time and only when none are. */
    method PollRead(room: nat) returns (r: ReadResult)
      requires Valid()
      modifies this, stream
      ensures Valid() && r == old(Outcome(room)) && pending == old(Left(room))
      ensures delivered == if r.ReadReady? then old(delivered) + r.bytes else old(delivered)
      ensures var polls := old(pending == [] && (responded || waits == []));
              && stream.events == old(stream.events)[if polls then Min(|old(stream.events)|, 1) else 0..]
              && responded == (old(responded) || polls)
      ensures waits == old(waits)[if old(pending == [] && !responded && waits != []) then 1 else 0..]
    {
      if pending != [] {
        var bytes := TakePending(room);
        return ReadReady(bytes);
      }
      while !responded
        invariant Valid() && pending == [] && delivered == old(delivered) && waits == old(waits)
        invariant stream.events == old(stream.events)
        invariant responded ==> old(responded) || waits == []
        invariant !responded ==> !old(responded)
        decreases !responded
      {
        if waits != [] {
          r := if waits[0].StillWaiting? then ReadPending else ReadFailed;
          waits := waits[1..];
          return;
        }
        responded := true;
      }
      r := PollBody(room);
    }
  }

  // ---- Reading until a read brings nothing ----

  predicate NoEmpty(chunks: Chunks) {
    forall i :: 0 <= i < |chunks| ==> chunks[i] != []
  }

  /** A read with room brings nothing just when an empty DATA frame is next or the body is over. */
  lemma ZeroRead(a: RecvAdapter, room: nat)
    requires room > 0
    ensures a.Outcome(room) == ReadReady([]) <==>
              && a.pending == [] && (a.responded || a.waits == [])
              && (a.stream.events == [] || a.stream.events[0] == Chunk([]))
  {
  }

  /** A read brings what comes next, all of it or as much as there is room for, and keeps the rest. */
  lemma ReadFills(a: RecvAdapter, room: nat)
    ensures a.pending != [] ==>
              && a.Outcome(room).ReadReady? && a.Outcome(room).bytes + a.Left(room) == a.pending
              && (|a.Outcome(room).bytes| == room || a.Left(room) == [])
    ensures Polls(a) && a.stream.events != [] && a.stream.events[0].Chunk? ==>
              && a.Outcome(room).ReadReady? && a.Outcome(room).bytes + a.Left(room) == a.stream.events[0].data
              && (|a.Outcome(room).bytes| == room || a.Left(room) == [])
  {
  }

  /** Without empty frames it does so only when the whole body has been delivered. */
  lemma ZeroReadAtEnd(a: RecvAdapter, room: nat)
    requires a.Valid() && room > 0 && NoEmpty(ChunksOf(a.stream.events))
    ensures a.Outcome(room) == ReadReady([]) ==> a.delivered == a.body && a.stream.events == []
  {
  }

  /** The bytes ahead of the first empty chunk. */
  function UpToEmpty(chunks: Chunks): seq<byte> {
    if chunks == [] || chunks[0] == [] then [] else chunks[0] + UpToEmpty(chunks[1..])
  }

  predicate Faultless(waits: seq<Waiting>, events: seq<BodyEvent>) {
    ResponseBroken !in waits && Broken !in events
  }

  /** The body breaks before an empty chunk comes. */
  ghost predicate BreaksFirst(events: seq<BodyEvent>) {
    exists k :: 0 <= k < |events| && events[k].Broken? && Chunk([]) !in events[..k]
  }

  lemma BreaksNext(events: seq<BodyEvent>)
    requires events != []
    ensures BreaksFirst(events) <==> events[0].Broken? || (events[0] != Chunk([]) && BreaksFirst(events[1..]))
  {
    if k :| 0 < k < |events| && events[k].Broken? && Chunk([]) !in events[..k] {
      assert events[..k][0] == events[0];
      assert events[1..][..k - 1] == events[..k][1..];
      assert events[1..][k - 1] == events[k];
    }
    if k :| 0 <= k < |events[1..]| && events[1..][k].Broken? && Chunk([]) !in events[1..][..k] {
      assert events[..k + 1] == [events[0]] + events[1..][..k];
    }
  }

  /** The response fails, or the body does before an empty chunk comes. */
  ghost predicate WillBreak(a: RecvAdapter)
    reads a, a.stream
  {
    (!a.responded && ResponseBroken in a.waits) || BreaksFirst(a.stream.events)
  }

  /** Whether a read brings a break nearer or meets it. */
  lemma BreakStays(
      responded: bool, waits: seq<Waiting>, events: seq<BodyEvent>, responded': bool, waits': seq<Waiting>,
      events': seq<BodyEvent>, polls: bool, waiting: bool)
    requires polls ==> (responded || waits == []) && !waiting
    requires waiting ==> !responded && waits != []
    requires events' == events[if polls then Min(|events|, 1) else 0..]
    requires waits' == waits[if waiting then 1 else 0..]
    requires responded' == (responded || polls)
    requires waiting ==> waits[0] != ResponseBroken
    requires polls && events != [] ==> !events[0].Broken? && events[0] != Chunk([])
    ensures (!responded && ResponseBroken in waits) || BreaksFirst(events)
       <==> (!responded' && ResponseBroken in waits') || BreaksFirst(events')
  {
    if polls && events != [] {
      BreaksNext(events);
    }
    assert waiting ==> waits == [waits[0]] + waits[1..];
    assert !waiting ==> waits' == waits;
    assert !polls ==> events' == events;
  }

  /** One read of a copy. */
  method CopyStep(a: RecvAdapter, room: nat) returns (r: ReadResult)
    requires a.Valid() && room > 0
    modifies a, a.stream
    ensures a.Valid() && a.delivered == if r.ReadReady? then old(a.delivered) + r.bytes else old(a.delivered)
    ensures r.ReadReady? ==> old(Rest(a)) == if r.bytes == [] then [] else r.bytes + Rest(a)
    ensures r.ReadPending? ==> old(Rest(a)) == Rest(a)
    ensures old(Faultless(a.waits, a.stream.events)) ==> !r.ReadFailed? && Faultless(a.waits, a.stream.events)
    ensures r.ReadFailed? ==> old(WillBreak(a))
    ensures r == ReadReady([]) ==> !old(WillBreak(a))
    ensures r.ReadPending? || (r.ReadReady? && r.bytes != []) ==> (WillBreak(a) <==> old(WillBreak(a)))
    ensures r.ReadPending? || (r.ReadReady? && r.bytes != []) ==>
              Remaining(a) < old(Remaining(a)) || (Remaining(a) == old(Remaining(a)) && |a.pending| < |old(a.pending)|)
  {
    ReadSplitsRest(a, room);
    ghost var responded, waits, events := a.responded, a.waits, a.stream.events;
    ghost var polls, waiting := Polls(a), a.pending == [] && !a.responded && a.waits != [];
    if polls && events != [] {
      BreaksNext(events);
    }
    r := a.PollRead(room);
    if r.ReadPending? || (r.ReadReady? && r.bytes != []) {
      BreakStays(responded, waits, events, a.responded, a.waits, a.stream.events, polls, waiting);
    }
  }

  ghost function Remaining(a: RecvAdapter): nat
    reads a, a.stream
  {
    |a.waits| + |a.stream.events|
  }

  /** Copying with a buffer of `room` bytes, the way `tokio::io::copy` does: until a read brings
      nothing. It gets what comes before the first empty DATA frame. */
  method CopyAll(a: RecvAdapter, room: nat) returns (copied: seq<byte>, ok: bool)
    requires a.Valid() && room > 0
    modifies a, a.stream
    ensures a.Valid() && a.delivered == old(a.delivered) + copied
    ensures ok ==> copied == old(Rest(a))
    ensures ok <==> !old(WillBreak(a))
    ensures old(Faultless(a.waits, a.stream.events)) ==> ok
  {
    copied := [];
    ghost var rest, delivered, faultless := Rest(a), a.delivered, Faultless(a.waits, a.stream.events);
    ghost var breaks := WillBreak(a);
    ghost var all := rest;
    while true
      invariant a.Valid() && a.delivered == delivered + copied
      invariant rest == Rest(a) && all == copied + rest
      invariant faultless ==> Faultless(a.waits, a.stream.events)
      invariant breaks <==> WillBreak(a)
      decreases Remaining(a), |a.pending|
    {
      var r := CopyStep(a, room);
      rest := Rest(a);
      if r.ReadFailed? {
        return copied, false;
      }
      if r.ReadReady? {
        if r.bytes == [] {
          return copied, true;
        }
        Regroup(copied, r.bytes, rest);
        Regroup(delivered, copied, r.bytes);
        copied := copied + r.bytes;
      }
    }
  }

  /** All that copying has still to get. */
  ghost function Rest(a: RecvAdapter): seq<byte>
    reads a, a.stream
  {
    a.pending + UpToEmpty(ChunksOf(a.stream.events))
  }

  ghost predicate Polls(a: RecvAdapter)
    reads a
  {
    a.pending == [] && (a.responded || a.waits == [])
  }

  /** What one read takes from what copying has still to get. */
  lemma ReadSplitsRest(a: RecvAdapter, room: nat)
    requires room > 0
    ensures var events := a.stream.events[if Polls(a) then Min(|a.stream.events|, 1) else 0..];
            match a.Outcome(room)
            case ReadReady(bytes) =>
              Rest(a) == if bytes == [] then [] else bytes + (a.Left(room) + UpToEmpty(ChunksOf(events)))
            case ReadPending => Rest(a) == a.Left(room) + UpToEmpty(ChunksOf(events))
            case ReadFailed => true
  {
    if a.pending != [] {
      var length := Min(|a.pending|, room);
      assert a.pending == a.pending[..length] + a.pending[length..];
      assert a.pending[..length][0] == a.pending[0];
    } else if Polls(a) && a.stream.events != [] && a.stream.events[0].Chunk? {
      var data := a.stream.events[0].data;
      var length := Min(|data|, room);
      assert data == data[..length] + data[length..];
    }
  }

  /** Copying gets the whole body just when nothing follows an empty chunk. */
  lemma CopyIsWhole(chunks: Chunks)
    ensures UpToEmpty(chunks) == Flatten(chunks) <==> NothingAfterEmpty(chunks)
  {
    CopyLength(chunks);
  }

  ghost predicate NothingAfterEmpty(chunks: Chunks) {
    forall i :: 0 <= i < |chunks| && chunks[i] == [] ==> Flatten(chunks[i..]) == []
  }

  lemma NothingAfterFirst(chunks: Chunks)
    requires chunks != []
    ensures NothingAfterEmpty(chunks)
       <==> (chunks[0] == [] ==> Flatten(chunks) == []) && NothingAfterEmpty(chunks[1..])
  {
  }

  lemma {:induction false} CopyLength(chunks: Chunks)
    ensures UpToEmpty(chunks) <= Flatten(chunks)
    ensures UpToEmpty(chunks) == Flatten(chunks) <==> NothingAfterEmpty(chunks)
  {
    if chunks != [] {
      NothingAfterFirst(chunks);
      CopyLength(chunks[1..]);
      if chunks[0] == [] {
        EmptyFlatten(chunks);
      } else {
        assert UpToEmpty(chunks)[|chunks[0]|..] == UpToEmpty(chunks[1..]);
        assert Flatten(chunks)[|chunks[0]|..] == Flatten(chunks[1..]);
      }
    }
  }

  lemma {:induction false} EmptyFlatten(chunks: Chunks)
    ensures Flatten(chunks) == [] ==> NothingAfterEmpty(chunks)
  {
    if chunks != [] {
      EmptyFlatten(chunks[1..]);
      NothingAfterFirst(chunks);
    }
  }

  // ---- Writing ----

  /** What polling for send capacity comes back with while the stream is open. */
  datatype CapacityEvent = NoneYet | Granted(capacity: nat) | Revoked

  datatype WriteResult = WritePending | Written(count: nat) | WriteFailed

  /** How many bytes can be sent in all: what there is, and what is granted before it is revoked. */
  function Budget(capacity: nat, grants: seq<CapacityEvent>): nat
    decreases |grants|
  {
    if grants == [] then capacity
    else
      match grants[0]
      case NoneYet => Budget(capacity, grants[1..])
      case Granted(more) => capacity + Budget(more, grants[1..])
      case Revoked => capacity
  }

  /** In how many frames `n` bytes are sent: each takes all the capacity there is, or what is left. */
  function FrameCount(capacity: nat, grants: seq<CapacityEvent>, n: nat): nat
    decreases |grants|, capacity
  {
    if n == 0 then 0
    else if capacity > 0 then 1 + if n <= capacity then 0 else FrameCount(0, grants, n - capacity)
    else if grants == [] then 0
    else
      match grants[0]
      case NoneYet => FrameCount(0, grants[1..], n)
      case Granted(more) => FrameCount(more, grants[1..], n)
      case Revoked => 0
  }

  /** An `h2::SendStream`: capacity still to be granted, the answers to sends (accepted once they run
      out), and the DATA frames sent. */
  class SendStream {
    var grants: seq<CapacityEvent>
    var refusals: seq<bool>
    var capacity: nat
    ghost var frames: Chunks

    constructor (grants: seq<CapacityEvent>, refusals: seq<bool>)
      ensures frames == [] && capacity == 0 && this.grants == grants && this.refusals == refusals
    {
      this.grants, this.refusals, capacity, frames := grants, refusals, 0, [];
    }

    /** None when the stream is closed. */
    method PollCapacity() returns (event: Option<CapacityEvent>)
      modifies `grants, `capacity
      ensures old(grants) == [] ==> event == None && grants == [] && capacity == old(capacity)
      ensures old(grants) != [] ==>
                && event == Some(old(grants)[0]) && grants == old(grants)[1..]
                && capacity == if event.value.Granted? then event.value.capacity else old(capacity)
    {
      if grants == [] {
        return None;
      }
      event, grants := Some(grants[0]), grants[1..];
      if event.value.Granted? {
        capacity := event.value.capacity;
      }
    }

    method SendData(data: seq<byte>) returns (ok: bool)
      requires |data| <= capacity
      modifies `refusals, `capacity, `frames
      ensures ok <==> old(refusals) == [] || !old(refusals)[0]
      ensures ok ==> frames == old(frames) + [data] && capacity == old(capacity) - |data|
      ensures !ok ==> frames == old(frames) && capacity == old(capacity)
      ensures refusals == old(refusals)[Min(1, |old(refusals)|)..]
    {
      ok := refusals == [] || !refusals[0];
      if refusals != [] {
        refusals := refusals[1..];
      }
      if ok {
        frames, capacity := frames + [data], capacity - |data|;
      }
    }

    ghost predicate CanWrite(n: nat)
      reads this
    {
      Writable(capacity, grants, refusals, n)
    }

    /** One DATA frame is sent or none: a non-empty prefix of the buffer, all of it unless that uses
        up the capacity. Nothing is reported written of a non-empty buffer only by a closed stream, and
        a write fails only when the buffer could never be written whole. */
    method PollWrite(buffer: seq<byte>) returns (r: WriteResult)
      modifies this
      ensures r.Written? ==> r.count <= |buffer|
      ensures r.Written? && r.count > 0 ==>
                && frames == old(frames) + [buffer[..r.count]] && (r.count < |buffer| ==> capacity == 0)
                && CanWrite(|buffer| - r.count) == old(CanWrite(|buffer|))
      ensures !(r.Written? && r.count > 0) ==> frames == old(frames)
      ensures r == Written(0) && buffer != [] ==> grants == [] && old(capacity) == 0
      ensures r.WriteFailed? || (r == Written(0) && buffer != []) ==> !old(CanWrite(|buffer|))
      ensures r.WritePending? ==> |grants| < |old(grants)| && CanWrite(|buffer|) == old(CanWrite(|buffer|))
    {
      if buffer == [] {
        return Written(0);
      }
      while capacity == 0
        invariant frames == old(frames) && |grants| <= |old(grants)|
        invariant CanWrite(|buffer|) == old(CanWrite(|buffer|))
        invariant capacity == 0 ==> old(capacity) == 0
        decreases |grants|, capacity == 0
      {
        var event := PollCapacity();
        if event.None? {
          return Written(0);
        }
        match event.value {
          case NoneYet => return WritePending;
          case Revoked => return WriteFailed;
          case Granted(_) =>
        }
      }
      var length := Min(capacity, |buffer|);
      SendSpends(capacity, grants, refusals, |buffer|);
      var ok := SendData(buffer[..length]);
      r := if ok then Written(length) else WriteFailed;
    }

    /** Writing a whole buffer, the way `write_all` does: it fails when a write reports nothing. It
        succeeds if and only if there is capacity for the buffer and none of the sends it takes is
        refused. */
    method WriteAll(buffer: seq<byte>) returns (ok: bool, written: nat)
      modifies this
      ensures written <= |buffer| && (ok ==> written == |buffer|)
      ensures Flatten(frames) == old(Flatten(frames)) + buffer[..written]
      ensures NoEmpty(old(frames)) ==> NoEmpty(frames)
      ensures ok <==> old(Writable(capacity, grants, refusals, |buffer|))
    {
      written := 0;
      ghost var sent, noEmpty, writable := Flatten(frames), NoEmpty(frames), CanWrite(|buffer|);
      assert buffer[..0] == [];
      while written < |buffer|
        invariant written <= |buffer| && Flatten(frames) == sent + buffer[..written]
        invariant noEmpty ==> NoEmpty(frames)
        invariant writable == CanWrite(|buffer| - written)
        decreases |buffer| - written, |grants|
      {
        ghost var before := frames;
        var r := PollWrite(buffer[written..]);
        match r {
          case WritePending =>
          case WriteFailed => return false, written;
          case Written(n) =>
            if n == 0 {
              return false, written;
            }
            FlattenSnoc(before, buffer[written..][..n]);
            assert buffer[..written + n] == buffer[..written] + buffer[written..][..n];
            written := written + n;
        }
      }
      assert buffer[..written] == buffer;
      ok := true;
    }
  }

  /** None of the first `n` sends is refused. */
  ghost predicate NoneRefused(refusals: seq<bool>, n: nat) {
    forall i :: 0 <= i < n && i < |refusals| ==> !refusals[i]
  }

  /** There is capacity for `n` bytes and no send they take is refused. */
  ghost predicate Writable(capacity: nat, grants: seq<CapacityEvent>, refusals: seq<bool>, n: nat) {
    n <= Budget(capacity, grants) && NoneRefused(refusals, FrameCount(capacity, grants, n))
  }

  lemma {:induction false} SpendCapacity(capacity: nat, grants: seq<CapacityEvent>, n: nat)
    requires n <= capacity
    ensures Budget(capacity - n, grants) == Budget(capacity, grants) - n
    decreases |grants|
  {
    if grants != [] && grants[0].NoneYet? {
      SpendCapacity(capacity, grants[1..], n);
    }
  }

  /** One more event: a wait brings nothing, a grant what it says, and after a revocation nothing comes. */
  lemma {:induction false} BudgetSnoc(capacity: nat, grants: seq<CapacityEvent>, last: CapacityEvent)
    ensures Budget(capacity, grants + [last]) ==
            Budget(capacity, grants) + if last.Granted? && Revoked !in grants then last.capacity else 0
    decreases |grants|
  {
    if grants == [] {
      assert [last][1..] == [];
    } else {
      assert (grants + [last])[1..] == grants[1..] + [last];
      BudgetSnoc(if grants[0].Granted? then grants[0].capacity else capacity, grants[1..], last);
    }
  }

  /** To be kept waiting for capacity, at whatever time, changes nothing of what can be written. */
  lemma {:induction false} WaitingChangesNothing(
      capacity: nat, before: seq<CapacityEvent>, after: seq<CapacityEvent>, n: nat)
    ensures Budget(capacity, before + [NoneYet] + after) == Budget(capacity, before + after)
    ensures FrameCount(capacity, before + [NoneYet] + after, n) == FrameCount(capacity, before + after, n)
    decreases |before|, n, capacity
  {
    var waiting, direct := before + [NoneYet] + after, before + after;
    if before == [] {
      assert waiting[1..] == after == direct;
      if n > capacity && capacity > 0 {
        WaitingChangesNothing(0, before, after, n - capacity);
      }
    } else {
      assert waiting[1..] == before[1..] + [NoneYet] + after && direct[1..] == before[1..] + after;
      assert waiting[0] == before[0] == direct[0];
      var more := if before[0].Granted? then before[0].capacity else capacity;
      WaitingChangesNothing(more, before[1..], after, n);
      if n > capacity && capacity > 0 {
        WaitingChangesNothing(0, before, after, n - capacity);
      } else if !before[0].Granted? {
        WaitingChangesNothing(0, before[1..], after, n);
      }
    }
  }

  lemma OneMoreRefusal(refusals: seq<bool>, n: nat)
    ensures NoneRefused(refusals, n + 1) <==>
              (refusals == [] || !refusals[0]) && NoneRefused(refusals[Min(1, |refusals|)..], n)
  {
    if refusals != [] {
      forall i | 0 < i < |refusals|
        ensures refusals[i] == refusals[1..][i - 1]
      {
      }
      if NoneRefused(refusals, n + 1) {
        forall i | 0 <= i < n && i < |refusals[1..]|
          ensures !refusals[1..][i]
        {
          assert !refusals[i + 1];
        }
      }
    }
  }

  /** What a send leaves to be written is writable just when all was and the send is not refused. */
  lemma SendSpends(capacity: nat, grants: seq<CapacityEvent>, refusals: seq<bool>, n: nat)
    requires capacity > 0 && n > 0
    ensures var length := Min(capacity, n);
            Writable(capacity, grants, refusals, n) <==>
              (refusals == [] || !refusals[0])
              && Writable(capacity - length, grants, refusals[Min(1, |refusals|)..], n - length)
  {
    var length := Min(capacity, n);
    SpendCapacity(capacity, grants, length);
    OneMoreRefusal(refusals, FrameCount(capacity - length, grants, n - length));
  }

  lemma FlattenSnoc(chunks: Chunks, last: seq<byte>)
    ensures Flatten(chunks + [last]) == Flatten(chunks) + last
  {
    FlattenConcat(chunks, [last]);
    assert Flatten([last]) == last + Flatten([last][1..]);
  }

  /** What HTTP/2 may make of a body's frames on the way: cut and join them, but not into empty ones, and
      end with the empty frame of a shutdown or without. */
  ghost predicate Carries(frames: Chunks, events: seq<BodyEvent>) {
    exists received: Chunks :: SameStream(frames, received) && ChunksOf(events) in {received, received + [[]]}
  }

  ghost predicate SameStream(frames: Chunks, received: Chunks) {
    NoEmpty(received) && Flatten(received) == Flatten(frames)
  }

  /** Then copying it gives what was written. */
  lemma WrittenBodyCopies(frames: Chunks, events: seq<BodyEvent>)
    requires Carries(frames, events)
    ensures UpToEmpty(ChunksOf(events)) == Flatten(frames)
  {
    var chunks := ChunksOf(events);
    var received: Chunks :| SameStream(frames, received) && chunks in {received, received + [[]]};
    FlattenSnoc(received, []);
    forall i | 0 <= i < |chunks| && chunks[i] == []
      ensures Flatten(chunks[i..]) == []
    {
      assert i == |received| && chunks[i..] == [[]];
    }
    CopyIsWhole(chunks);
  }

  /** Written and read back: what `WriteAll` put into the frames of a body, `CopyAll` gets out of it. */
  method CopyWritten(sender: SendStream, receiver: RecvAdapter, room: nat) returns (copied: seq<byte>, ok: bool)
    requires receiver.Valid() && room > 0 && receiver.pending == []
    requires Carries(sender.frames, receiver.stream.events)
    modifies receiver, receiver.stream
    ensures receiver.Valid() && receiver.delivered == old(receiver.delivered) + copied
    ensures ok ==> copied == Flatten(sender.frames)
    ensures ok <==> !old(WillBreak(receiver))
    ensures old(Faultless(receiver.waits, receiver.stream.events)) ==> ok
  {
    WrittenBodyCopies(sender.frames, receiver.stream.events);
    copied, ok := CopyAll(receiver, room);
  }

  /** An empty DATA frame ahead of more data ends a copy early. */
  lemma EmptyFrameCutsCopy(b: byte)
    ensures UpToEmpty([[], [b]]) != Flatten([[], [b]])
  {
  }
}
