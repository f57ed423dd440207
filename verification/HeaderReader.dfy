/** Reading the header off a byte stream that arrives in chunks. */
module HeaderReader {
  import opened Prelude
  import opened Bytes
  import opened Addresses
  import opened TunnelHeader
  import opened Seqs

  /** A connection's receiving end: the chunks still to come. A read never gives an empty chunk
      before the end. */
  class ByteStream {
    var chunks: seq<seq<byte>>

    ghost predicate Valid()
      reads this
    {
      forall i :: 0 <= i < |chunks| ==> chunks[i] != []
    }

    ghost function Contents(): seq<byte>
      reads this
    {
      Flatten(chunks)
    }

    constructor (chunks: seq<seq<byte>>)
      requires forall i :: 0 <= i < |chunks| ==> chunks[i] != []
      ensures Valid() && this.chunks == chunks
    {
      this.chunks := chunks;
    }

    /** One read of at most `room` bytes; none only at the end. */
    method Read(room: nat) returns (bytes: seq<byte>)
      requires Valid() && room > 0
      modifies this
      ensures Valid() && |bytes| <= room && old(Contents()) == bytes + Contents()
      ensures bytes == [] <==> old(Contents()) == []
    {
      if chunks == [] {
        return [];
      }
      var first := chunks[0];
      if |first| <= room {
        bytes, chunks := first, chunks[1..];
      } else {
        bytes, chunks := first[..room], [first[room..]] + chunks[1..];
        assert first == first[..room] + first[room..];
      }
      assert bytes != [];
    }

    /** `read_exact`: reads until `n` bytes are there, or fails at the end of the stream. */
    method ReadExact(n: nat) returns (bytes: Result<seq<byte>, HeaderError>)
      requires Valid()
      modifies this
      ensures Valid()
      ensures |old(Contents())| < n ==> bytes == Err(UnexpectedEof) && Contents() == []
      ensures |old(Contents())| >= n ==> bytes == Ok(old(Contents())[..n]) && Contents() == old(Contents())[n..]
    {
      var got: seq<byte> := [];
      while |got| < n
        invariant Valid() && |got| <= n && old(Contents()) == got + Contents()
      {
        var more := Read(n - |got|);
        if more == [] {
          assert old(Contents()) == got;
          return Err(UnexpectedEof);
        }
        got := got + more;
      }
      bytes := Ok(got);
    }
  }

  method ReadAddress(stream: ByteStream) returns (a: Result<SocketAddress, HeaderError>)
    requires stream.Valid()
    modifies stream
    ensures stream.Valid()
    ensures match ParseAddress(old(stream.Contents()))
            case Ok(p) => a == Ok(p.value) && stream.Contents() == p.rest
            case Err(e) => a == Err(e)
  {
    var option := stream.ReadExact(1);
    if option.Err? {
      return Err(option.error);
    }
    var v4 := option.value[0] < 0x80;
    var ip := stream.ReadExact(if v4 then 4 else 16);
    if ip.Err? {
      return Err(ip.error);
    }
    var port := stream.ReadExact(2);
    if port.Err? {
      return Err(port.error);
    }
    a := Ok(AddressOf(v4, ip.value, port.value));
  }

  method ReadField(stream: ByteStream) returns (t: Result<Option<Text>, HeaderError>)
    requires stream.Valid()
    modifies stream
    ensures stream.Valid()
    ensures match ParseField(old(stream.Contents()))
            case Ok(p) => t == Ok(p.value) && stream.Contents() == p.rest
            case Err(e) => t == Err(e)
  {
    var length := stream.ReadExact(1);
    if length.Err? {
      return Err(length.error);
    }
    if length.value[0] == 0 {
      return Ok(None);
    }
    var text := stream.ReadExact(length.value[0]);
    if text.Err? {
      return Err(text.error);
    }
    if !ValidUtf8(text.value) {
      return Err(NotUtf8);
    }
    t := Ok(Some(text.value));
  }

  /** `accept`: whatever the chunks, it reads the header at the start of the stream and leaves what
      follows it. */
  method AcceptHeader(stream: ByteStream) returns (h: Result<Header, HeaderError>)
    requires stream.Valid()
    modifies stream
    ensures stream.Valid()
    ensures match ParseHeader(old(stream.Contents()))
            case Ok(p) => h == Ok(p.value) && stream.Contents() == p.rest
            case Err(e) => h == Err(e)
  {
    var destination := ReadAddress(stream);
    if destination.Err? {
      return Err(destination.error);
    }
    var name := ReadField(stream);
    if name.Err? {
      return Err(name.error);
    }
    var tag := ReadField(stream);
    if tag.Err? {
      return Err(tag.error);
    }
    h := Ok(Header(destination.value, name.value, tag.value));
  }
}
