/**
 Vocabulary shared by the control-plane modules: addresses, router identifiers and
 the links that PWOSPF routers advertise.
 */
module Net {

  datatype Option<+T> = None | Some(value: T)

  /** An IPv4 address or mask, in host byte order. */
  type Ip = bv32

  /** A PWOSPF router identifier, as the 32-bit word the source stores. */
  type RouterId = x: nat | x < 0x1_0000_0000

  /** One advertisement of an LSU packet (struct pwospf_lsu_adv). */
  datatype Adv = Adv(subnet: Ip, mask: Ip, rid: RouterId)

  /** One entry of a router's interface list (struct pwospf_interface). */
  datatype Link = Link(subnet: Ip, mask: Ip, rid: RouterId, active: bool) {

    /** The link without its activity flag: what an LSU says about it. */
    function Ad(): Adv {
      Adv(subnet, mask, rid)
    }

    /** The subnet with its host bits cleared. */
    function Base(): Ip {
      subnet & mask
    }
  }

  /** A neighbour heard on an interface (struct nbr_router). */
  datatype Nbr = Nbr(rid: RouterId, ip: Ip, lastHello: int)

  /** One of our interfaces (struct iface_entry). */
  datatype Iface = Iface(name: string, ip: Ip, mask: Ip, active: bool, nbrs: seq<Nbr>) {

    function Subnet(): Ip {
      ip & mask
    }
  }

  /** A routing table entry (struct rtable_entry). */
  datatype Route = Route(ip: Ip, gw: Ip, mask: Ip, iface: string, isStatic: bool, isActive: bool)
}
