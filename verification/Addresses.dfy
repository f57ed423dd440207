/** IP and socket addresses as bit patterns. */
module Addresses {
  import opened Prelude

  type u16 = b: int | 0 <= b < 0x1_0000
  type u32 = b: int | 0 <= b < TWO_32
  type u128 = b: int | 0 <= b < TWO_128

  datatype Ip = V4(v4: u32) | V6(v6: u128)

  datatype SocketAddress =
    | SocketV4(ip4: u32, port: u16)
    | SocketV6(ip6: u128, port: u16, flow: u32, scope: u32)
}
