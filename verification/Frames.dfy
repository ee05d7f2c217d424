/** Packet layout, the buffer the programs rewrite, and the flow key shared by all of them. */
module Frames {
  import opened Bytes

  type Mac = m: seq<byte> | |m| == 6 witness [0, 0, 0, 0, 0, 0]
  /** A service path header in network byte order: three bytes of path id, one byte of service index. */
  type Sph = s: seq<byte> | |s| == 4 witness [0, 0, 0, 0]
  /** The 24 bytes of `struct nshhdr_md1`. */
  type Nsh = n: seq<byte> | |n| == 24 witness seq(24, _ => 0)
  /** The 13 bytes of the packed `struct ip_5tuple`. */
  type Key = k: seq<byte> | |k| == 13 witness seq(13, _ => 0)

  const ETH_HLEN: nat := 14
  const IP_HLEN: nat := 20
  const NSH_LEN: nat := 24
  const VLAN_HLEN: nat := 4
  const ENCAP_LEN: nat := 38 // outer Ethernet header and NSH

  const ETH_P_IP: seq<byte> := [0x08, 0x00]
  const ETH_P_8021Q: seq<byte> := [0x81, 0x00]
  const ETH_P_NSH: seq<byte> := [0x89, 0x4F]

  const IPPROTO_ICMP: byte := 1
  const IPPROTO_IPIP: byte := 4
  const IPPROTO_TCP: byte := 6
  const IPPROTO_UDP: byte := 17

  const NSH_NEXT_PROTO_ETHER: byte := 3

  /* ----- NSH fields ----- */

  function SphOf(n: Nsh): Sph { n[4..8] }
  function SiOf(n: Nsh): byte { n[7] }
  function NextProtoOf(n: Nsh): byte { n[3] }
  function WithSph(n: Nsh, s: Sph): Nsh { n[..4] + s + n[8..] }

  /** Default TTL and the base length of MD type 2, MD type 2, next protocol Ethernet. */
  const NSH_BASE: seq<byte> := [0x0F, 0xC2, 0x02, NSH_NEXT_PROTO_ETHER]

  /** The header the classifier and the agent build; neither writes the four context words. */
  function FreshNsh(sph: Sph, context: seq<byte>): Nsh
    requires |context| == 16
  {
    NSH_BASE + sph + context
  }

  /** What a fresh header says: version 0, no OAM bit, TTL 63, length 2, MD type 2, Ethernet inside. */
  lemma FreshHeaderFields(sph: Sph, context: seq<byte>)
    requires |context| == 16
    ensures var n := FreshNsh(sph, context);
            var info := 0x100 * (n[0] as int) + n[1];
            && info / 0x1000 == 0 && info / 0x40 % 0x40 == 63 && info % 0x40 == 2
            && n[2] == 2 && n[3] == 3 && n[4..8] == sph && n[8..24] == context
  {
  }

  /** The Ethernet frame that carries `inner` behind an NSH. */
  function NshWire(dst: Mac, src: Mac, n: Nsh, inner: Frame): (f: Frame)
    ensures |f| == ENCAP_LEN + |inner|
  {
    dst + src + ETH_P_NSH + n + inner
  }

  lemma NshWireFields(dst: Mac, src: Mac, n: Nsh, inner: Frame)
    ensures var f := NshWire(dst, src, n, inner);
            f[..6] == dst && f[6..12] == src && f[12..14] == ETH_P_NSH && f[14..38] == n && f[38..] == inner
    ensures NshWire(dst, src, n, inner)[17] == n[3]
    ensures NshWire(dst, src, n, inner)[18..22] == SphOf(n)
  {
    var f := NshWire(dst, src, n, inner);
    assert f[14..38] == n;
    assert f[38..] == inner;
    assert f[18..22] == f[14..38][4..8];
  }

  function WithSrcMac(f: Frame, src: Mac): Frame
    requires |f| >= ETH_HLEN
  {
    f[..6] + src + f[12..]
  }

  /* ----- flow keys ----- */

  /** Length of the transport header a flow key is read from, if the protocol is a known one. */
  function L4Len(proto: byte): Option<nat> {
    if proto == IPPROTO_UDP then Some(8)
    else if proto == IPPROTO_TCP then Some(20)
    else if proto == IPPROTO_ICMP then Some(0)
    else None
  }

  /** Source and destination port of the packet `p`, read right behind its first IP header. */
  function Ports(p: seq<byte>, proto: byte): (r: seq<byte>)
    requires proto != IPPROTO_ICMP ==> |p| >= IP_HLEN + 4
    ensures |r| == 4
  {
    if proto == IPPROTO_ICMP then [0, 0, 0, 0] else p[20..24]
  }

  /** The IP header that names the flow of the packet `p`: the inner one of an IP-in-IP packet. */
  function FlowHeader(p: seq<byte>): (h: seq<byte>)
    requires |p| >= IP_HLEN
  {
    if p[9] == IPPROTO_IPIP then p[20..] else p
  }

  /** The flow key of the IP packet `p`, or None where `get_tuple` fails. */
  function TupleOf(p: seq<byte>): Option<Key> {
    if |p| < IP_HLEN then None else
    var h := FlowHeader(p);
    if |h| < IP_HLEN then None else
    var l4 := L4Len(h[9]);
    if l4 == None || |p| < IP_HLEN + l4.value then None
    else Some(h[12..20] + Ports(p, h[9]) + [h[9]])
  }

  /** The protocol of the header that names the flow: that of the inner one behind one IP-in-IP header. */
  function FlowProto(p: seq<byte>): byte
    requires |p| >= 20 && (p[9] == 4 ==> |p| >= 40)
  {
    if p[9] == 4 then p[29] else p[9]
  }

  /** Which packets have a key, byte for byte: a whole header, inside IP-in-IP a second one, and behind the
      first header 8 bytes for UDP, 20 for TCP, none for ICMP; no other protocol has one. */
  lemma TupleExists(p: seq<byte>)
    ensures TupleOf(p).Some? <==>
            && |p| >= 20 && (p[9] == 4 ==> |p| >= 40)
            && ((FlowProto(p) == 17 && |p| >= 28) || (FlowProto(p) == 6 && |p| >= 40) || FlowProto(p) == 1)
  {
  }

  /** Which bytes the key has: addresses and protocol of the flow's header, ports from behind the first one. */
  lemma TupleFields(p: seq<byte>)
    requires TupleOf(p).Some?
    ensures |p| >= 20 && (p[9] == 4 ==> |p| >= 40)
    ensures var k, ip := TupleOf(p).value, if p[9] == 4 then 20 else 0;
            && k[..4] == p[ip + 12..ip + 16] && k[4..8] == p[ip + 16..ip + 20] && k[12] == FlowProto(p)
            && if FlowProto(p) == 1 then k[8..12] == [0, 0, 0, 0]
               else |p| >= 24 && k[8..10] == p[20..22] && k[10..12] == p[22..24]
  {
    var k, h, ip := TupleOf(p).value, FlowHeader(p), if p[9] == 4 then 20 else 0;
    hide Ports, FlowHeader;
    KeyParts(h[12..20], Ports(p, h[9]), h[9]);
    assert h == p[ip..] && h[9] == FlowProto(p) by { HeaderStarts(p); }
    SliceOfSlice(p, ip, 12, 20);
    assert p[ip + 12..ip + 20][..4] == p[ip + 12..ip + 16] && p[ip + 12..ip + 20][4..] == p[ip + 16..ip + 20];
    PortBytes(p, h[9]);
  }

  lemma HeaderStarts(p: seq<byte>)
    requires |p| >= 20 && (p[9] == 4 ==> |p| >= 40)
    ensures FlowHeader(p) == p[if p[9] == 4 then 20 else 0..] && FlowHeader(p)[9] == FlowProto(p)
  {
  }

  lemma KeyParts(addresses: seq<byte>, ports: seq<byte>, proto: byte)
    requires |addresses| == 8 && |ports| == 4
    ensures var k := addresses + ports + [proto];
            && k[..4] == addresses[..4] && k[4..8] == addresses[4..]
            && k[8..10] == ports[..2] && k[10..12] == ports[2..] && k[8..12] == ports && k[12] == proto
  {
  }

  lemma PortBytes(p: seq<byte>, proto: byte)
    requires proto != IPPROTO_ICMP ==> |p| >= 24
    ensures if proto == 1 then Ports(p, proto) == [0, 0, 0, 0]
            else Ports(p, proto)[..2] == p[20..22] && Ports(p, proto)[2..] == p[22..24]
  {
  }

  /** The flow key of the packet whose IP header starts at `ip`. */
  function TupleAt(d: Frame, ip: nat): Option<Key> {
    if ip > |d| then None else TupleOf(d[ip..])
  }

  /** The flow an IPv4 Ethernet frame belongs to. */
  function FlowOf(f: Frame): Option<Key> {
    if |f| >= ETH_HLEN + IP_HLEN && f[12..14] == ETH_P_IP then TupleAt(f, ETH_HLEN) else None
  }

  /** Rewriting the Ethernet addresses leaves the flow alone. */
  lemma FlowIgnoresMacs(f: Frame, dst: Mac, src: Mac)
    requires |f| >= ETH_HLEN
    ensures FlowOf(dst + src + f[12..]) == FlowOf(f)
  {
    var g := dst + src + f[12..];
    assert g[12..14] == f[12..14];
    assert g[14..] == f[14..];
  }

  lemma JoinSlices(d: seq<byte>, i: nat, j: nat, k: nat)
    requires i <= j <= k <= |d|
    ensures d[i..j] + d[j..k] == d[i..k]
  {
  }

  lemma SliceOfSlice(d: seq<byte>, o: nat, i: nat, j: nat)
    requires i <= j && o + j <= |d|
    ensures d[o..][i..j] == d[o + i..o + j]
  {
  }

  lemma TailOfTail(d: seq<byte>, o: nat, i: nat)
    requires o + i <= |d|
    ensures d[o..][i..] == d[o + i..]
  {
  }

  /** `get_tuple`: fills the five fields of the tuple one after the other. */
  method GetTuple(d: Frame, ipData: nat) returns (ret: int, t: Key)
    ensures ret == 0 || ret == -1
    ensures ret == 0 ==> TupleAt(d, ipData) == Some(t)
    ensures ret != 0 ==> TupleAt(d, ipData) == None
  {
    t := seq(13, _ => 0);
    var ip := ipData;
    if ip + IP_HLEN > |d| { return -1, t; }
    if d[ip + 9] == IPPROTO_IPIP {
      ip := ip + IP_HLEN;
      if ip + IP_HLEN > |d| { return -1, t; }
    }
    var ipSrc, ipDst, proto := d[ip + 12..ip + 16], d[ip + 16..ip + 20], d[ip + 9];
    ghost var p := d[ipData..];
    assert FlowHeader(p) == d[ip..];
    JoinSlices(d, ip + 12, ip + 16, ip + 20);
    SliceOfSlice(d, ip, 12, 20);
    var ok, sport, dport := ReadPorts(d, ipData, proto);
    if !ok { return -1, t; }
    assert ipSrc + ipDst + sport + dport + [proto] == (ipSrc + ipDst) + (sport + dport) + [proto];
    ret, t := 0, ipSrc + ipDst + sport + dport + [proto];
  }

  /** The switch of `get_tuple`. */
  method ReadPorts(d: Frame, ipData: nat, proto: byte) returns (ok: bool, sport: seq<byte>, dport: seq<byte>)
    requires ipData + IP_HLEN <= |d|
    ensures ok <==> L4Len(proto).Some? && ipData + IP_HLEN + L4Len(proto).value <= |d|
    ensures |sport| == 2 && |dport| == 2 && (ok ==> sport + dport == Ports(d[ipData..], proto))
  {
    ok, sport, dport := true, [0, 0], [0, 0];
    var l4 := ipData + IP_HLEN;
    if proto == IPPROTO_UDP {
      if l4 + 8 > |d| { return false, sport, dport; }
      dport := d[l4 + 2..l4 + 4];
      sport := d[l4..l4 + 2];
      JoinSlices(d, l4, l4 + 2, l4 + 4);
      SliceOfSlice(d, ipData, 20, 24);
    } else if proto == IPPROTO_TCP {
      if l4 + 20 > |d| { return false, sport, dport; }
      dport := d[l4 + 2..l4 + 4];
      sport := d[l4..l4 + 2];
      JoinSlices(d, l4, l4 + 2, l4 + 4);
      SliceOfSlice(d, ipData, 20, 24);
    } else if proto != IPPROTO_ICMP {
      ok := false;
    }
  }

  /* ----- the packet buffer ----- */

  /** The buffer after `b` is written at `off`. */
  function Splice(d: Frame, off: nat, b: seq<byte>): Frame
    requires off + |b| <= |d|
  {
    d[..off] + b + d[off + |b|..]
  }

  lemma SpliceMiddle(x: Frame, y: Frame, z: Frame, b: Frame)
    requires |b| == |y|
    ensures Splice(x + y + z, |x|, b) == x + b + z
  {
  }

  /** Behind what is written the buffer is as it was. */
  lemma SplicedParts(d: Frame, off: nat, b: seq<byte>, upto: nat)
    requires off + |b| <= upto <= |d|
    ensures Splice(d, off, b)[..upto] == d[..off] + b + d[off + |b|..upto]
    ensures Splice(d, off, b)[off + |b|..] == d[off + |b|..]
    ensures Splice(d, off, b)[upto..] == d[upto..]
  {
  }

  /** A socket buffer or XDP buffer, seen through its data and data_end pointers. */
  class Packet {
    var data: Frame

    constructor (d: Frame)
      ensures data == d
    {
      data := d;
    }

    /** `bpf_xdp_adjust_head` with a positive offset; the kernel insists on a remaining Ethernet header. */
    method Pull(n: nat)
      requires n + ETH_HLEN <= |data|
      modifies this
      ensures data == old(data)[n..]
    {
      data := data[n..];
    }

    /** `bpf_xdp_adjust_head` with a negative offset: the new bytes are whatever lay before the packet. */
    method Push(room: seq<byte>)
      modifies this
      ensures data == room + old(data)
    {
      data := room + data;
    }

    /** `bpf_skb_adjust_room` in BPF_ADJ_ROOM_MAC mode: room opens between MAC header and payload. */
    method AdjustRoom(room: seq<byte>)
      requires |data| >= ETH_HLEN
      modifies this
      ensures data == old(data)[..ETH_HLEN] + room + old(data)[ETH_HLEN..]
    {
      data := data[..ETH_HLEN] + room + data[ETH_HLEN..];
    }

    /** A memcpy or field assignment into the packet. */
    method Store(off: nat, b: seq<byte>)
      requires off + |b| <= |data|
      modifies this
      ensures data == Splice(old(data), off, b)
      ensures |data| == old(|data|)
    {
      data := Splice(data, off, b);
    }

    /** Room behind the MAC header, the header then copied to the end of that room. */
    method OpenMacRoom(room: seq<byte>)
      requires |data| >= ETH_HLEN && |room| == ENCAP_LEN
      modifies this
      ensures data == old(data)[..ETH_HLEN] + room[..NSH_LEN] + old(data)
    {
      ghost var e, rest := data[..14], data[14..];
      AdjustRoom(room);
      assert data == (e + room[..24]) + room[24..] + rest;
      SpliceMiddle(e + room[..24], room[24..], rest, e);
      Store(38, data[..14]);
      assert data == e + room[..24] + (e + rest);
    }

    /** Sets the EtherType of the outer header at 0 and of the inner header at 38. */
    method SetProtos(outer: seq<byte>, inner: seq<byte>)
      requires |data| >= ENCAP_LEN + ETH_HLEN && |outer| == 2 && |inner| == 2
      modifies this
      ensures data == old(data)[..12] + outer + old(data)[14..50] + inner + old(data)[52..]
    {
      ghost var d := data;
      Store(12, outer);
      SplicedParts(d, 12, outer, 50);
      TailOfTail(d, 14, 38);
      TailOfTail(data, 14, 38);
      Store(50, inner);
    }
  }
}
