/** The header each tunnelled stream starts with: its printer, its parser, and how they fit. */
module TunnelHeader {
  import opened Prelude
  import opened Bytes
  import opened Addresses
  import opened Seqs

  datatype Header = Header(destination: SocketAddress, name: Option<Text>, tag: Option<Text>)

  datatype HeaderError = TooLong | UnexpectedEof | NotUtf8

  datatype Parsed<+T> = Parsed(value: T, rest: seq<byte>)

  const OPTION_V4: byte := 0x00
  const OPTION_V6: byte := 0x80

  // ---- The printer ----

  function AddressBytes(a: SocketAddress): seq<byte> {
    match a
    case SocketV4(ip, port) => [OPTION_V4] + BigEndian(ip, 4) + BigEndian(port, 2)
    case SocketV6(ip, port, _, _) => [OPTION_V6] + BigEndian(ip, 16) + BigEndian(port, 2)
  }

  function TextOrEmpty(t: Option<Text>): Text {
    if t.Some? then t.value else []
  }

  predicate Fits(t: Option<Text>) {
    |TextOrEmpty(t)| <= 255
  }

  function FieldBytes(t: Option<Text>): seq<byte>
    requires Fits(t)
  {
    [|TextOrEmpty(t)|] + TextOrEmpty(t)
  }

  function HeaderBytes(h: Header): seq<byte>
    requires Fits(h.name) && Fits(h.tag)
  {
    AddressBytes(h.destination) + FieldBytes(h.name) + FieldBytes(h.tag)
  }

  /** What `connect` writes ahead of the payload, or its failure. */
  method WriteHeader(h: Header) returns (head: Result<seq<byte>, HeaderError>)
    ensures head == if Fits(h.name) && Fits(h.tag) then Ok(HeaderBytes(h)) else Err(TooLong)
  {
    var bytes: seq<byte> := [];
    match h.destination {
      case SocketV4(ip, port) =>
        bytes := bytes + [OPTION_V4];
        bytes := bytes + BigEndian(ip, 4);
      case SocketV6(ip, port, _, _) =>
        bytes := bytes + [OPTION_V6];
        bytes := bytes + BigEndian(ip, 16);
    }
    bytes := bytes + BigEndian(h.destination.port, 2);
    var name := TextOrEmpty(h.name);
    if |name| > 255 {
      return Err(TooLong);
    }
    bytes := bytes + [|name|];
    bytes := bytes + name;
    var tag := TextOrEmpty(h.tag);
    if |tag| > 255 {
      return Err(TooLong);
    }
    bytes := bytes + [|tag|];
    bytes := bytes + tag;
    assert bytes == HeaderBytes(h);
    head := Ok(bytes);
  }

  // ---- The parser ----

  function TakeBytes(bs: seq<byte>, n: nat): Result<Parsed<seq<byte>>, HeaderError> {
    if |bs| < n then Err(UnexpectedEof) else Ok(Parsed(bs[..n], bs[n..]))
  }

  function ParseAddress(bs: seq<byte>): Result<Parsed<SocketAddress>, HeaderError> {
    if bs == [] then Err(UnexpectedEof)
    else
      var width := if bs[0] < 0x80 then 4 else 16;
      var ip := TakeBytes(bs[1..], width);
      if ip.Err? then Err(ip.error)
      else
        var port := TakeBytes(ip.value.rest, 2);
        if port.Err? then Err(port.error)
        else Ok(Parsed(AddressOf(bs[0] < 0x80, ip.value.value, port.value.value), port.value.rest))
  }

  function AddressOf(v4: bool, ip: seq<byte>, port: seq<byte>): SocketAddress
    requires |ip| == (if v4 then 4 else 16) && |port| == 2
  {
    PowersOf256();
    EncodeBigEndian(ip);
    EncodeBigEndian(port);
    if v4 then SocketV4(FromBigEndian(ip), FromBigEndian(port))
    else SocketV6(FromBigEndian(ip), FromBigEndian(port), 0, 0)
  }

  /** A length byte and that many bytes of UTF-8; no bytes read as no field. */
  function ParseField(bs: seq<byte>): Result<Parsed<Option<Text>>, HeaderError> {
    if bs == [] then Err(UnexpectedEof)
    else if bs[0] == 0 then Ok(Parsed(None, bs[1..]))
    else
      var text := TakeBytes(bs[1..], bs[0]);
      if text.Err? then Err(text.error)
      else if !ValidUtf8(text.value.value) then Err(NotUtf8)
      else Ok(Parsed(Some(text.value.value), text.value.rest))
  }

  function ParseHeader(bs: seq<byte>): Result<Parsed<Header>, HeaderError> {
    var destination := ParseAddress(bs);
    if destination.Err? then Err(destination.error)
    else
      var name := ParseField(destination.value.rest);
      if name.Err? then Err(name.error)
      else
        var tag := ParseField(name.value.rest);
        if tag.Err? then Err(tag.error)
        else Ok(Parsed(Header(destination.value.value, name.value.value, tag.value.value), tag.value.rest))
  }

  // ---- There and back ----

  /** What survives the trip: flow label and scope are dropped, an empty text reads as none. */
  function Normal(h: Header): Header {
    Header(
      if h.destination.SocketV4? then h.destination else h.destination.(flow := 0, scope := 0),
      if TextOrEmpty(h.name) == [] then None else h.name,
      if TextOrEmpty(h.tag) == [] then None else h.tag)
  }

  lemma Pieces(first: byte, ip: seq<byte>, port: seq<byte>, rest: seq<byte>)
    requires |port| == 2
    ensures var bs := [first] + ip + port + rest;
            && bs[1..][..|ip|] == ip && bs[1..][|ip|..][..2] == port && bs[1..][|ip|..][2..] == rest
  {
  }

  lemma AddressOfParts(a: SocketAddress)
    ensures var ip := if a.SocketV4? then BigEndian(a.ip4, 4) else BigEndian(a.ip6, 16);
            var b := if a.SocketV4? then a else a.(flow := 0, scope := 0);
            AddressOf(a.SocketV4?, ip, BigEndian(a.port, 2)) == b
  {
    PowersOf256();
    DecodeBigEndian(a.port, 2);
    if a.SocketV4? {
      DecodeBigEndian(a.ip4, 4);
    } else {
      DecodeBigEndian(a.ip6, 16);
    }
  }

  lemma AddressRoundTrip(h: Header, rest: seq<byte>)
    ensures ParseAddress(AddressBytes(h.destination) + rest) == Ok(Parsed(Normal(h).destination, rest))
  {
    var a := h.destination;
    AddressOfParts(a);
    if a.SocketV4? {
      Pieces(OPTION_V4, BigEndian(a.ip4, 4), BigEndian(a.port, 2), rest);
    } else {
      Pieces(OPTION_V6, BigEndian(a.ip6, 16), BigEndian(a.port, 2), rest);
    }
  }

  lemma FieldRoundTrip(t: Option<Text>, rest: seq<byte>)
    requires Fits(t)
    ensures ParseField(FieldBytes(t) + rest) == Ok(Parsed(if TextOrEmpty(t) == [] then None else t, rest))
  {
    var bs := FieldBytes(t) + rest;
    assert bs[1..] == TextOrEmpty(t) + rest;
    assert bs[1..][..|TextOrEmpty(t)|] == TextOrEmpty(t);
    assert bs[1..][|TextOrEmpty(t)|..] == rest;
  }

  /** Reading back a written header gives its destination, name and tag, and leaves what follows. */
  lemma HeaderRoundTrip(h: Header, rest: seq<byte>)
    requires Fits(h.name) && Fits(h.tag)
    ensures ParseHeader(HeaderBytes(h) + rest) == Ok(Parsed(Normal(h), rest))
  {
    var tagged := FieldBytes(h.tag) + rest;
    assert HeaderBytes(h) + rest == AddressBytes(h.destination) + (FieldBytes(h.name) + tagged);
    AddressRoundTrip(h, FieldBytes(h.name) + tagged);
    FieldRoundTrip(h.name, tagged);
    FieldRoundTrip(h.tag, rest);
  }

  lemma AddressOfBytes(v4: bool, ip: seq<byte>, port: seq<byte>)
    requires |ip| == (if v4 then 4 else 16) && |port| == 2
    ensures AddressBytes(AddressOf(v4, ip, port)) == [if v4 then OPTION_V4 else OPTION_V6] + (ip + port)
  {
    EncodeBigEndian(ip);
    EncodeBigEndian(port);
    PowersOf256();
    Regroup([if v4 then OPTION_V4 else OPTION_V6], ip, port);
  }

  lemma AddressRebuilt(bs: seq<byte>)
    requires ParseAddress(bs).Ok?
    ensures var p := ParseAddress(bs).value;
            && bs[1..] == AddressBytes(p.value)[1..] + p.rest
            && AddressBytes(p.value)[0] == (if bs[0] < 0x80 then OPTION_V4 else OPTION_V6)
            && |bs| == |AddressBytes(p.value)| + |p.rest|
  {
    var v4 := bs[0] < 0x80;
    var width := if v4 then 4 else 16;
    var ip, rest := bs[1..][..width], bs[1..][width..];
    AddressOfBytes(v4, ip, rest[..2]);
    assert bs[1..] == ip + rest;
    assert rest == rest[..2] + rest[2..];
    Regroup(ip, rest[..2], rest[2..]);
  }

  lemma FieldRebuilt(bs: seq<byte>)
    requires ParseField(bs).Ok?
    ensures Fits(ParseField(bs).value.value)
    ensures bs == FieldBytes(ParseField(bs).value.value) + ParseField(bs).value.rest
  {
  }

  lemma FieldsRebuilt(bs: seq<byte>)
    requires ParseHeader(bs).Ok?
    ensures var p := ParseHeader(bs).value;
            && Fits(p.value.name) && Fits(p.value.tag)
            && ParseAddress(bs).value.rest == FieldBytes(p.value.name) + (FieldBytes(p.value.tag) + p.rest)
  {
    FieldRebuilt(ParseAddress(bs).value.rest);
    FieldRebuilt(ParseField(ParseAddress(bs).value.rest).value.rest);
  }

  lemma Reassembled(bs: seq<byte>, address: seq<byte>, name: seq<byte>, tag: seq<byte>, rest: seq<byte>)
    requires bs != [] && address != [] && bs[1..] == address[1..] + (name + (tag + rest))
    ensures var whole := address + name + tag + rest;
            |bs| == |whole| && bs[1..] == whole[1..] && (bs == whole <==> bs[0] == address[0])
  {
    var whole := address + name + tag + rest;
    assert whole[1..] == address[1..] + (name + (tag + rest));
    assert bs == [bs[0]] + bs[1..] && whole == [whole[0]] + whole[1..];
  }

  lemma RebuiltFrom(bs: seq<byte>, h: Header, rest: seq<byte>)
    requires Fits(h.name) && Fits(h.tag) && bs != []
    requires bs[1..] == AddressBytes(h.destination)[1..] + (FieldBytes(h.name) + (FieldBytes(h.tag) + rest))
    requires AddressBytes(h.destination)[0] == if bs[0] < 0x80 then OPTION_V4 else OPTION_V6
    ensures |bs| == |HeaderBytes(h) + rest| && bs[1..] == (HeaderBytes(h) + rest)[1..]
    ensures bs == HeaderBytes(h) + rest <==> bs[0] == OPTION_V4 || bs[0] == OPTION_V6
  {
    Reassembled(bs, AddressBytes(h.destination), FieldBytes(h.name), FieldBytes(h.tag), rest);
  }

  /** Writing back a parsed header gives its bytes, except that the first byte comes back as 0x00 or
      0x80: the bytes are exactly those of a written header just when it was one of these. */
  lemma HeaderRebuilt(bs: seq<byte>)
    requires ParseHeader(bs).Ok?
    ensures var p := ParseHeader(bs).value;
            && Fits(p.value.name) && Fits(p.value.tag)
            && |bs| == |HeaderBytes(p.value) + p.rest|
            && bs[1..] == (HeaderBytes(p.value) + p.rest)[1..]
            && (bs == HeaderBytes(p.value) + p.rest <==> bs[0] == OPTION_V4 || bs[0] == OPTION_V6)
  {
    AddressRebuilt(bs);
    FieldsRebuilt(bs);
    RebuiltFrom(bs, ParseHeader(bs).value.value, ParseHeader(bs).value.rest);
  }

  // ---- A header says where it ends ----

  lemma CutPieces(bs: seq<byte>, n: nat, k: nat)
    requires n <= k <= |bs|
    ensures bs[..k][..n] == bs[..n] && bs[..k][n..] == bs[n..][..k - n]
  {
  }

  lemma AddressTruncated(bs: seq<byte>, k: nat)
    requires ParseAddress(bs).Ok? && k <= |bs|
    ensures var p := ParseAddress(bs).value;
            var length := |bs| - |p.rest|;
            ParseAddress(bs[..k])
            == if k < length then Err(UnexpectedEof) else Ok(Parsed(p.value, p.rest[..k - length]))
  {
    var width := if bs[0] < 0x80 then 4 else 16;
    if k >= 1 {
      CutPieces(bs, 1, k);
      if k >= 1 + width {
        CutPieces(bs[1..], width, k - 1);
        if k >= 3 + width {
          CutPieces(bs[1..][width..], 2, k - 1 - width);
        }
      }
    }
  }

  lemma FieldTruncated(bs: seq<byte>, k: nat)
    requires ParseField(bs).Ok? && k <= |bs|
    ensures var p := ParseField(bs).value;
            var length := |bs| - |p.rest|;
            ParseField(bs[..k]) == if k < length then Err(UnexpectedEof) else Ok(Parsed(p.value, p.rest[..k - length]))
  {
    if k >= 1 {
      CutPieces(bs, 1, k);
      if k > bs[0] {
        CutPieces(bs[1..], bs[0], k - 1);
      }
    }
  }

  /** Cutting a stream inside or after the two text fields. */
  lemma FieldsTruncated(bs: seq<byte>, k: nat)
    requires ParseField(bs).Ok? && ParseField(ParseField(bs).value.rest).Ok? && k <= |bs|
    ensures var name := ParseField(bs).value;
            var tag := ParseField(name.rest).value;
            var length := |bs| - |tag.rest|;
            var cut := ParseField(bs[..k]);
            && |tag.rest| <= |name.rest| <= |bs|
            && (cut.Err? ==> k < length && cut == Err(UnexpectedEof))
            && (cut.Ok? ==>
                  && cut.value.value == name.value
                  && ParseField(cut.value.rest)
                     == if k < length then Err(UnexpectedEof) else Ok(Parsed(tag.value, tag.rest[..k - length])))
  {
    var name := ParseField(bs).value;
    FieldRebuilt(bs);
    FieldRebuilt(name.rest);
    FieldTruncated(bs, k);
    var j := k - (|bs| - |name.rest|);
    if j >= 0 {
      FieldTruncated(name.rest, j);
    }
  }

  /** Of a stream that starts with a header, every prefix that cuts the header short reads as an
      unexpected end, and every longer one as that header. */
  lemma HeaderTruncated(bs: seq<byte>, k: nat)
    requires ParseHeader(bs).Ok? && k <= |bs|
    ensures var p := ParseHeader(bs).value;
            var length := |bs| - |p.rest|;
            ParseHeader(bs[..k]) == if k < length then Err(UnexpectedEof) else Ok(Parsed(p.value, p.rest[..k - length]))
  {
    var named := ParseAddress(bs).value.rest;
    AddressShorter(bs);
    AddressTruncated(bs, k);
    if k >= |bs| - |named| {
      FieldsTruncated(named, k - (|bs| - |named|));
    } else {
      FieldsTruncated(named, 0);
    }
  }

  lemma AddressShorter(bs: seq<byte>)
    requires ParseAddress(bs).Ok?
    ensures |ParseAddress(bs).value.rest| < |bs|
  {
  }

  lemma HeaderAlone(h: Header)
    requires Fits(h.name) && Fits(h.tag)
    ensures ParseHeader(HeaderBytes(h)) == Ok(Parsed(Normal(h), []))
  {
    HeaderRoundTrip(h, []);
    assert HeaderBytes(h) + [] == HeaderBytes(h);
  }

  /** Bytes that are a header and nothing more do not start another such. */
  lemma WholeHeaderIsNoPrefix(a: seq<byte>, b: seq<byte>)
    requires a <= b && ParseHeader(a).Ok? && ParseHeader(b).Ok? && ParseHeader(b).value.rest == []
    ensures a == b
  {
    assert b[..|a|] == a;
    HeaderTruncated(b, |a|);
  }

  /** No header is a proper prefix of another. */
  lemma PrefixFree(g: Header, h: Header)
    requires Fits(g.name) && Fits(g.tag) && Fits(h.name) && Fits(h.tag)
    requires HeaderBytes(g) <= HeaderBytes(h)
    ensures HeaderBytes(g) == HeaderBytes(h) && Normal(g) == Normal(h)
  {
    HeaderAlone(g);
    HeaderAlone(h);
    WholeHeaderIsNoPrefix(HeaderBytes(g), HeaderBytes(h));
  }

  /** Two headers are written the same just when they mean the same. */
  lemma SameBytes(g: Header, h: Header)
    requires Fits(g.name) && Fits(g.tag) && Fits(h.name) && Fits(h.tag)
    ensures HeaderBytes(g) == HeaderBytes(h) <==> Normal(g) == Normal(h)
  {
    HeaderAlone(g);
    HeaderAlone(h);
    SameMeaning(g, h);
  }

  lemma SameMeaning(g: Header, h: Header)
    requires Fits(g.name) && Fits(g.tag) && Fits(h.name) && Fits(h.tag)
    ensures Normal(g) == Normal(h) ==> HeaderBytes(g) == HeaderBytes(h)
  {
  }

  /** A header no `connect` writes: an option bit below the top one is read over, and gone when the
      header is written again. */
  lemma UnwrittenOption()
    ensures var bs: seq<byte> := [0x01, 198, 18, 0, 1, 1, 187, 0, 0];
            ParseHeader(bs).Ok? && ParseHeader(bs).value.rest == []
            && Fits(ParseHeader(bs).value.value.name) && Fits(ParseHeader(bs).value.value.tag)
            && HeaderBytes(ParseHeader(bs).value.value) != bs
  {
    var bs: seq<byte> := [0x01, 198, 18, 0, 1, 1, 187, 0, 0];
    assert bs[1..][4..][2..] == [0, 0];
    HeaderRebuilt(bs);
    var p := ParseHeader(bs).value;
    assert HeaderBytes(p.value) + [] == HeaderBytes(p.value);
  }

  lemma PortBytes(port: u16)
    ensures BigEndian(port, 2) == [port / 256, port % 256]
  {
    assert BigEndian(port / 256, 1) == [] + [port / 256];
  }

  /** The layout: one option byte, the address and the port big-endian, and two texts behind their lengths. */
  lemma HeaderLayout(h: Header)
    requires Fits(h.name) && Fits(h.tag)
    ensures var ip := match h.destination
                      case SocketV4(v4, _) => [0x00] + BigEndian(v4, 4)
                      case SocketV6(v6, _, _, _) => [0x80] + BigEndian(v6, 16);
            var port := [h.destination.port / 256, h.destination.port % 256];
            var name, tag := if h.name.Some? then h.name.value else [], if h.tag.Some? then h.tag.value else [];
            HeaderBytes(h) == (ip + port) + ([|name|] + name) + ([|tag|] + tag)
  {
    PortBytes(h.destination.port);
  }

  lemma FieldPieces(text: seq<byte>, rest: seq<byte>)
    requires |text| <= 255
    ensures var bs := [|text|] + text + rest; bs[0] as int == |text| && bs[1..] == text + rest
    ensures (text + rest)[..|text|] == text
  {
  }

  lemma BadField(bad: seq<byte>, rest: seq<byte>)
    requires 0 < |bad| <= 255 && !ValidUtf8(bad)
    ensures ParseField([|bad|] + bad + rest) == Err(NotUtf8)
  {
    FieldPieces(bad, rest);
    var text := TakeBytes(bad + rest, |bad|);
    assert text.Ok? && text.value.value == bad;
  }

  /** A name or a tag whose bytes are no text is refused as such. */
  lemma BadTextIsRefused(h: Header, bad: seq<byte>, rest: seq<byte>)
    requires Fits(h.name) && 0 < |bad| <= 255 && !ValidUtf8(bad)
    ensures ParseHeader(AddressBytes(h.destination) + ([|bad|] + bad + rest)) == Err(NotUtf8)
    ensures ParseHeader(AddressBytes(h.destination) + (FieldBytes(h.name) + ([|bad|] + bad + rest))) == Err(NotUtf8)
  {
    BadField(bad, rest);
    AddressRoundTrip(h, [|bad|] + bad + rest);
    AddressRoundTrip(h, FieldBytes(h.name) + ([|bad|] + bad + rest));
    FieldRoundTrip(h.name, [|bad|] + bad + rest);
  }

  lemma ExampleNumbers()
    ensures BigEndian(0x0102_0304, 4) == [1, 2, 3, 4] && BigEndian(443, 2) == [1, 187]
  {
    assert BigEndian(1, 1) == [] + [1];
    assert BigEndian(0x0102, 2) == [1] + [2];
    assert BigEndian(0x01_0203, 3) == [1, 2] + [3];
    assert BigEndian(0x0102_0304, 4) == [1, 2, 3] + [4];
  }

  lemma ExampleText()
    ensures ValidUtf8([0x61, 0x62])
  {
    assert [0x61, 0x62][1..] == [0x62] && [0x62][1..] == [];
    assert ValidUtf8([0x62]);
  }

  /** The header of 1.2.3.4:443 with the name "ab" and no tag. */
  lemma HeaderExample()
    ensures ValidUtf8([0x61, 0x62])
    ensures HeaderBytes(Header(SocketV4(0x0102_0304, 443), Some([0x61, 0x62]), None))
         == [0x00, 1, 2, 3, 4, 1, 187, 2, 0x61, 0x62, 0]
  {
    ExampleNumbers();
    ExampleText();
  }
}
