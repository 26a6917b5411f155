/** Machine integers, addresses and names shared by the three modelled components. */
module DnsTypes {

  type Byte = x: int | 0 <= x < 0x100
  type U16 = x: int | 0 <= x < 0x1_0000
  type U32 = x: int | 0 <= x < 0x1_0000_0000
  type U128 = x: int | 0 <= x < 0x1_0000_0000_0000_0000_0000_0000_0000_0000

  const U16_MAX: int := 0xFFFF
  const U32_MAX: int := 0xFFFF_FFFF

  /** An IP address; the octets of each version are held as one integer. */
  datatype IpAddr = V4(v4: U32) | V6(v6: U128)

  /** A domain name: its labels and whether it is fully qualified. */
  datatype Name = Name(labels: seq<string>, fqdn: bool)

  /** `Name::root()`: no labels, fully qualified. */
  const ROOT: Name := Name([], true)

  /** `Name::new()`: no labels, not fully qualified. */
  const EMPTY_NAME: Name := Name([], false)
}
