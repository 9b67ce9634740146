/** IPv4 and IPv6 addresses and prefixes, as numbers, and the transport protocols with ports. */
module Addresses {
  import opened Basics

  datatype Protocol = Tcp | Udp

  type Ipv4 = a: nat | a <= U32_MAX

  const UNSPECIFIED: Ipv4 := 0

  /** A network as the range it covers, from its network address to its broadcast address. */
  datatype Ipv4Net = Ipv4Net(network: Ipv4, broadcast: Ipv4) {
    predicate Valid() { network <= broadcast }

    predicate Contains(a: Ipv4) { network <= a <= broadcast }

    /** The first host address: the first after the network address, or the first of a /31 or /32. */
    function FirstHost(): (host: Ipv4)
      requires Valid()
      ensures Contains(host)
      ensures broadcast - network >= 3 ==> host != network && forall a :: Contains(a) && a != network ==> host <= a
      ensures broadcast - network < 3 ==> forall a :: Contains(a) ==> host <= a
    {
      if broadcast - network >= 3 then network + 1 else network
    }
  }

  type Ipv6 = nat

  /** An IPv6 prefix as the range it covers. */
  datatype Ipv6Net = Ipv6Net(first: Ipv6, last: Ipv6) {
    predicate Contains(a: Ipv6) { first <= a <= last }
  }

  /** fe80::/10 */
  const LINK_LOCAL := Ipv6Net(0xfe80_0000_0000_0000_0000_0000_0000_0000, 0xfebf_ffff_ffff_ffff_ffff_ffff_ffff_ffff)
  /** ff00::/8 */
  const MULTICAST := Ipv6Net(0xff00_0000_0000_0000_0000_0000_0000_0000, 0xffff_ffff_ffff_ffff_ffff_ffff_ffff_ffff)
}
