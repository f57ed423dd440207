/** The fake addresses octet by octet: what the allocator hands out and what the resolver takes for fake. */
module FakeIpNets {
  import opened Prelude
  import opened Bytes
  import opened Addresses
  import opened FakeIpTable

  /** The address of id `id` in 198.18.0.0/15 or 2001:db8::/32. */
  ghost predicate AddressOf(fake: Ip, id: nat) {
    && (fake.V4? && id < 0x2_0000 ==>
          Octets(fake) == [198, 18 + id / 0x1_0000, id / 0x100 % 0x100, id % 0x100])
    && (fake.V6? && id < 0x8000_0000_0000_0000 ==>
          Octets(fake) == [0x20, 0x01, 0x0D, 0xB8, 0, 0, 0, 0] + BigEndian(id, 8))
  }

  lemma Carry(high: nat, p: nat, low: nat, last: nat)
    ensures (high * p + low) * 256 + last == high * (256 * p) + (low * 256 + last)
  {
    assert (high * p) * 256 == high * (256 * p);
  }

  lemma {:induction false} FromConcat(a: seq<byte>, b: seq<byte>)
    ensures FromBigEndian(a + b) == FromBigEndian(a) * Pow256(|b|) + FromBigEndian(b)
  {
    if b == [] {
      assert a + b == a;
    } else {
      var front, last := b[..|b| - 1], b[|b| - 1];
      assert (a + b)[..|a + b| - 1] == a + front;
      FromConcat(a, front);
      Carry(FromBigEndian(a), Pow256(|front|), FromBigEndian(front), last);
    }
  }

  lemma FromSnoc(front: seq<byte>, last: byte)
    ensures FromBigEndian(front + [last]) == FromBigEndian(front) * 256 + last as int
  {
    assert (front + [last])[..|front|] == front;
  }

  lemma FromFour(a: byte, b: byte, c: byte, d: byte)
    ensures FromBigEndian([a, b, c, d]) == a as int * 0x100_0000 + b as int * 0x1_0000 + c as int * 0x100 + d as int
  {
    FromSnoc([], a);
    FromSnoc([a], b);
    FromSnoc([a, b], c);
    FromSnoc([a, b, c], d);
    assert [] + [a] == [a] && [a] + [b] == [a, b] && [a, b] + [c] == [a, b, c] && [a, b, c] + [d] == [a, b, c, d];
  }

  lemma V4Octets(id: nat)
    requires id < 0x2_0000
    ensures BigEndian(V4_START + id, 4) == [198, 18 + id / 0x1_0000, id / 0x100 % 0x100, id % 0x100]
  {
    var bs: seq<byte> := [198, 18 + id / 0x1_0000, id / 0x100 % 0x100, id % 0x100];
    FromFour(198, 18 + id / 0x1_0000, id / 0x100 % 0x100, id % 0x100);
    assert id == id / 0x1_0000 * 0x1_0000 + id / 0x100 % 0x100 * 0x100 + id % 0x100;
    EncodeBigEndian(bs);
  }

  lemma Powers()
    ensures Pow256(8) == TWO_64 && Pow256(12) == TWO_96
  {
  }

  lemma V6Octets(id: nat)
    requires id < TWO_63
    ensures BigEndian(V6_START + id, 16) == [0x20, 0x01, 0x0D, 0xB8, 0, 0, 0, 0] + BigEndian(id, 8)
  {
    var net: seq<byte>, zeros: seq<byte> := [0x20, 0x01, 0x0D, 0xB8], [0, 0, 0, 0];
    var low := BigEndian(id, 8);
    Powers();
    DecodeBigEndian(id, 8);
    FromFour(0x20, 0x01, 0x0D, 0xB8);
    FromFour(0, 0, 0, 0);
    FromConcat(net, zeros);
    FromConcat(net + zeros, low);
    assert Pow256(4) == 0x1_0000_0000;
    assert net + zeros == [0x20, 0x01, 0x0D, 0xB8, 0, 0, 0, 0];
    assert FromBigEndian(net + zeros + low) == V6_START + id;
    EncodeBigEndian(net + zeros + low);
  }

  lemma NoLoss(id: nat, realIp: Ip)
    ensures var fake := ConvertIdToFakeIp(id, realIp);
            && (fake.V4? <==> realIp.V4?)
            && (realIp.V4? && id < 0x2_0000 ==> fake == V4(V4_START + id))
            && (realIp.V6? && id < TWO_63 ==> fake == V6(V6_START + id))
  {
    if realIp.V4? {
      assert id < 0x2_0000 ==> id % TWO_32 == id;
    } else {
      assert id < TWO_63 ==> id % TWO_128 == id;
    }
  }

  /** The allocator's answer is the address of its id, with nothing lost in the casts. */
  lemma ConvertedIsAddress(id: nat, realIp: Ip)
    ensures AddressOf(ConvertIdToFakeIp(id, realIp), id)
    ensures ConvertIdToFakeIp(id, realIp).V4? <==> realIp.V4?
  {
    NoLoss(id, realIp);
    if realIp.V4? {
      V4Address(id);
    } else {
      V6Address(id);
    }
  }

  lemma V4Address(id: nat)
    ensures id < 0x2_0000 ==> V4_START + id < TWO_32 && AddressOf(V4(V4_START + id), id)
  {
    if id < 0x2_0000 {
      V4Octets(id);
    }
  }

  lemma V6Address(id: nat)
    ensures id < TWO_63 ==> V6_START + id < TWO_128 && AddressOf(V6(V6_START + id), id)
  {
    if id < TWO_63 {
      V6Octets(id);
    }
  }

  lemma ByteBounds(bits: nat)
    requires bits < TWO_32
    ensures var bs := BigEndian(bits, 4);
            bits == bs[0] as int * 0x100_0000 + bs[1] as int * 0x1_0000 + bs[2] as int * 0x100 + bs[3] as int
  {
    var bs := BigEndian(bits, 4);
    PowersOf256();
    DecodeBigEndian(bits, 4);
    assert bs == [bs[0], bs[1], bs[2], bs[3]];
    FromFour(bs[0], bs[1], bs[2], bs[3]);
  }

  /** An IPv4 address is taken for fake if and only if it lies in 198.18.0.0/15; its id is the rest. */
  lemma FakeV4Exactly(ip: Ip)
    requires ip.V4?
    ensures FakeId(ip).Some? <==> Octets(ip)[0] == 198 && Octets(ip)[1] in {18, 19}
    ensures var bs := Octets(ip);
            FakeId(ip).Some? ==>
              FakeId(ip).value == (bs[1] as int - 18) * 0x1_0000 + bs[2] as int * 0x100 + bs[3] as int
  {
    ByteBounds(ip.v4);
  }

  lemma V6Parts(bits: nat)
    requires bits < TWO_128
    ensures var bs := BigEndian(bits, 16);
            && bits == FromBigEndian(bs[..4]) * TWO_96 + FromBigEndian(bs[4..])
            && FromBigEndian(bs[4..]) == FromBigEndian(bs[4..8]) * TWO_64 + FromBigEndian(bs[8..])
            && 0 <= FromBigEndian(bs[4..]) < TWO_96 && 0 <= FromBigEndian(bs[8..]) < TWO_64
  {
    var bs := BigEndian(bits, 16);
    PowersOf256();
    Powers();
    DecodeBigEndian(bits, 16);
    assert bs == bs[..4] + bs[4..] && bs[4..] == bs[4..8] + bs[8..];
    FromConcat(bs[..4], bs[4..]);
    FromConcat(bs[4..8], bs[8..]);
    EncodeBigEndian(bs[4..]);
    EncodeBigEndian(bs[8..]);
  }

  lemma NetOctets(bs: seq<byte>)
    requires |bs| == 4
    ensures FromBigEndian(bs) == 0x2001_0DB8 <==> bs == [0x20, 0x01, 0x0D, 0xB8]
  {
    assert bs == [bs[0], bs[1], bs[2], bs[3]];
    FromFour(bs[0], bs[1], bs[2], bs[3]);
  }

  /** An IPv6 address is taken for fake if and only if it lies in 2001:db8::/32; its id is its last eight
      octets, read as a signed number. */
  lemma FakeV6Exactly(ip: Ip)
    requires ip.V6?
    ensures FakeId(ip).Some? <==> Octets(ip)[..4] == [0x20, 0x01, 0x0D, 0xB8]
    ensures var low := FromBigEndian(Octets(ip)[8..]);
            FakeId(ip).Some? ==>
              FakeId(ip).value == if low < 0x8000_0000_0000_0000 then low else low - 0x1_0000_0000_0000_0000
  {
    var bs := Octets(ip);
    V6Parts(ip.v6);
    NetOctets(bs[..4]);
    if FakeId(ip).Some? {
      var high, low := FromBigEndian(bs[4..8]), FromBigEndian(bs[8..]);
      assert ip.v6 - V6_START == high * TWO_64 + low;
      LowBits(high, low);
    }
  }

  lemma LowBits(high: nat, low: nat)
    requires low < TWO_64
    ensures (high * TWO_64 + low) % TWO_64 == low
  {
  }
}
