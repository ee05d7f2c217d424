/** The three per-packet programs of a node: decapsulation on ingress, encapsulation and forwarding
    on egress. The functions say what each program does to the frame and to the NSH table; the
    methods of `Node` are the programs, rewriting the buffer field by field. */
module Stages {
  import opened Bytes
  import opened Frames

  const INGRESS_MAC: nat := 0
  const EGRESS_MAC: nat := 1

  /** Capacity of `nsh_data` and `fwd_table`. */
  const MAX_ENTRIES: nat := 2048

  datatype FwdEntry = FwdEntry(flags: byte, address: Mac) {
    predicate EndOfChain() { flags % 2 == 1 }
  }

  type NshTable = map<Key, Nsh>
  type FwdTable = map<Sph, FwdEntry>

  datatype NodeState = NodeState(nshData: NshTable, fwdTable: FwdTable, srcMac: map<nat, Mac>)

  /** Pass stands for XDP_PASS and TC_ACT_OK, Drop for XDP_DROP and TC_ACT_SHOT, Next for TC_ACT_UNSPEC. */
  datatype Verdict = Pass | Drop | Next

  /** `bpf_map_update_elem` with BPF_ANY on a hash map: a new key needs a free slot. */
  function MapUpdate<K, V>(m: map<K, V>, k: K, v: V): map<K, V> {
    if k in m || |m| < MAX_ENTRIES then m[k := v] else m
  }

  /* ----- decap ----- */

  datatype NshPlace = Absent | Truncated | At(offset: nat)

  /** Where the NSH of a frame starts, behind at most one VLAN tag. */
  function NshPlaceOf(f: Frame): NshPlace
    requires |f| >= ETH_HLEN
  {
    if f[12..14] == ETH_P_8021Q then
      if |f| < ETH_HLEN + VLAN_HLEN then Truncated
      else if f[16..18] == ETH_P_NSH then At(ETH_HLEN + VLAN_HLEN) else Absent
    else if f[12..14] == ETH_P_NSH then At(ETH_HLEN) else Absent
  }

  /** The header and the inner frame of an NSH frame that decap accepts. */
  datatype Opened = Opened(key: Key, nsh: Nsh, inner: Frame)

  function OpenAt(f: Frame, o: nat): Option<Opened> {
    if |f| < o + NSH_LEN + ETH_HLEN + IP_HLEN || f[o + 3] != NSH_NEXT_PROTO_ETHER then None
    else match TupleAt(f, o + NSH_LEN + ETH_HLEN)
      case None => None
      case Some(k) => Some(Opened(k, f[o..o + NSH_LEN], f[o + NSH_LEN..]))
  }

  datatype Ingress = Ingress(verdict: Verdict, frame: Frame, nshData: NshTable)

  function Decap(st: NodeState, f: Frame): Ingress {
    if |f| < ETH_HLEN || INGRESS_MAC !in st.srcMac || f[0] % 2 == 1 then Ingress(Pass, f, st.nshData)
    else if f[..6] != st.srcMac[INGRESS_MAC] then Ingress(Drop, f, st.nshData)
    else match NshPlaceOf(f)
      case Absent => Ingress(Pass, f, st.nshData)
      case Truncated => Ingress(Drop, f, st.nshData)
      case At(o) =>
        match OpenAt(f, o)
        case None => Ingress(Drop, f, st.nshData)
        case Some(x) => Ingress(Pass, x.inner, MapUpdate(st.nshData, x.key, x.nsh))
  }

  /* ----- encap and forward ----- */

  /** A service path header one service index further. */
  function Decrement(s: Sph): Sph
    requires s[3] > 0
  {
    s[..3] + [s[3] - 1]
  }

  datatype Egress = Egress(verdict: Verdict, frame: Frame)

  /** The frame leaves untouched but for its source address. */
  function SendPlain(st: NodeState, f: Frame): Egress
    requires |f| >= ETH_HLEN
  {
    if EGRESS_MAC in st.srcMac then Egress(Pass, WithSrcMac(f, st.srcMac[EGRESS_MAC])) else Egress(Drop, f)
  }

  /** The room helper may fail; `grown` says whether it succeeded. */
  function Encap(st: NodeState, f: Frame, grown: bool): Egress {
    match FlowOf(f)
    case None => Egress(Pass, f)
    case Some(k) =>
      if k !in st.nshData then SendPlain(st, f)
      else if SiOf(st.nshData[k]) == 0 then Egress(Drop, f)
      else
        var sph := Decrement(SphOf(st.nshData[k]));
        if sph in st.fwdTable && st.fwdTable[sph].EndOfChain() then SendPlain(st, f)
        else if !grown then Egress(Drop, f)
        else Egress(Next, NshWire(f[..6], f[6..12], WithSph(st.nshData[k], sph), f))
  }

  function Forward(st: NodeState, f: Frame): Egress {
    if |f| < ENCAP_LEN || f[18..22] !in st.fwdTable then Egress(Drop, f)
    else
      var e := st.fwdTable[f[18..22]];
      if e.EndOfChain() || EGRESS_MAC !in st.srcMac then Egress(Drop, f)
      else Egress(Pass, e.address + st.srcMac[EGRESS_MAC] + f[12..])
  }

  /** What the two egress filters do one after the other: the second runs only on TC_ACT_UNSPEC. */
  function EgressPipeline(st: NodeState, f: Frame, grown: bool): (Egress, bool) {
    var e := Encap(st, f, grown);
    if e.verdict == Next then (Forward(st, e.frame), true) else (e, false)
  }

  /* ----- the programs ----- */

  class Node {
    var nshData: NshTable
    var fwdTable: FwdTable
    var srcMac: map<nat, Mac>

    function State(): NodeState
      reads this
    {
      NodeState(nshData, fwdTable, srcMac)
    }

    constructor (macs: map<nat, Mac>)
      ensures State() == NodeState(map[], map[], macs)
    {
      nshData, fwdTable, srcMac := map[], map[], macs;
    }

    /** `set_src_mac`: 0 on success, -1 where no address is configured. */
    method SetSrcMac(pkt: Packet, idx: nat) returns (ret: int)
      requires |pkt.data| >= ETH_HLEN
      modifies pkt
      ensures ret == if idx in srcMac then 0 else -1
      ensures pkt.data == if idx in srcMac then WithSrcMac(old(pkt.data), srcMac[idx]) else old(pkt.data)
    {
      if idx !in srcMac { return -1; }
      pkt.Store(6, srcMac[idx]);
      return 0;
    }

    method DecapNsh(pkt: Packet) returns (v: Verdict)
      modifies this`nshData, pkt
      ensures Ingress(v, pkt.data, nshData) == Decap(old(State()), old(pkt.data))
    {
      var data := pkt.data;
      var offset := 0;
      if ETH_HLEN > |data| { return Pass; }
      offset := offset + ETH_HLEN;
      if INGRESS_MAC !in srcMac { return Pass; }
      var mymac := srcMac[INGRESS_MAC];
      if data[0] % 2 == 1 { return Pass; }
      var mine := SameMac(mymac, data);
      if !mine { return Drop; }
      var proto := data[12..14];
      if proto == ETH_P_8021Q {
        offset := offset + VLAN_HLEN;
        if offset > |data| { return Drop; }
        proto := data[16..18];
      }
      if proto != ETH_P_NSH { return Pass; }
      assert NshPlaceOf(data) == At(offset);
      v := StripNsh(pkt, offset);
    }

    /** The byte-by-byte address comparison of `decap_nsh`, from the last byte down. */
    method SameMac(mymac: Mac, data: Frame) returns (same: bool)
      requires |data| >= 6
      ensures same <==> data[..6] == mymac
    {
      var i := 5;
      while i >= 0
        invariant -1 <= i <= 5
        invariant forall j :: i < j < 6 ==> mymac[j] == data[j]
      {
        if mymac[i] != data[i] {
          assert mymac[i] != data[..6][i];
          return false;
        }
        i := i - 1;
      }
      assert data[..6] == mymac;
      return true;
    }

    /** The second half of `decap_nsh`: saves the NSH at `nsh` and removes everything up to its end. */
    method StripNsh(pkt: Packet, nsh: nat) returns (v: Verdict)
      modifies this`nshData, pkt
      ensures var x := OpenAt(old(pkt.data), nsh);
              if x == None then v == Drop && pkt.data == old(pkt.data) && nshData == old(nshData)
              else v == Pass && pkt.data == x.value.inner
                   && nshData == MapUpdate(old(nshData), x.value.key, x.value.nsh)
    {
      var data := pkt.data;
      var offset := nsh + NSH_LEN;
      if offset > |data| { return Drop; }
      if data[nsh + 3] != NSH_NEXT_PROTO_ETHER { return Drop; }
      if offset + ETH_HLEN + IP_HLEN > |data| { return Drop; }
      var ret, key := GetTuple(data, offset + ETH_HLEN);
      if ret != 0 { return Drop; }
      nshData := MapUpdate(nshData, key, data[nsh..nsh + NSH_LEN]);
      pkt.Pull(offset);
      return Pass;
    }

    method EncapNsh(pkt: Packet, room: Option<seq<byte>>) returns (v: Verdict)
      requires room.Some? ==> |room.value| == ENCAP_LEN
      modifies pkt
      ensures Egress(v, pkt.data) == Encap(State(), old(pkt.data), room.Some?)
    {
      var data := pkt.data;
      if ETH_HLEN + IP_HLEN > |data| { return Pass; }
      if data[12..14] != ETH_P_IP { return Pass; }
      var ret, key := GetTuple(data, ETH_HLEN);
      if ret < 0 { return Pass; }
      if key !in nshData {
        ret := SetSrcMac(pkt, EGRESS_MAC);
        return if ret != 0 then Drop else Pass;
      }
      var prev := nshData[key];
      var next := NextSph(prev);
      if next == None { return Drop; }
      var fkey := next.value;
      if fkey in fwdTable && fwdTable[fkey].EndOfChain() {
        ret := SetSrcMac(pkt, EGRESS_MAC);
        return if ret != 0 then Drop else Pass;
      }
      var prevProto := data[12..14];
      if room.None? { return Drop; }
      Reencapsulate(pkt, room.value, prev, fkey, prevProto);
      return Next;
    }

    /** Loads the stored path header, takes one off its service index and swaps it back, unless the index is zero. */
    method NextSph(prev: Nsh) returns (next: Option<Sph>)
      ensures next == if SiOf(prev) == 0 then None else Some(Decrement(SphOf(prev)))
    {
      hide Swap32, FromLE32, FromBE32, LE32, BE32;
      var sph := Swap32(FromLE32(prev[4..8]));
      SwapOfLoad(prev[4..8]);
      LastByteIsLowByte(prev[4..8]);
      if sph % 0x100 == 0 { return None; }
      DecrementLastByte(prev[4..8]);
      sph := sph - 1;
      Swap32Layout(sph);
      return Some(LE32(Swap32(sph)));
    }

    /** The second half of `encap_nsh`: opens the room, copies the Ethernet header inside, puts the NSH between. */
    method Reencapsulate(pkt: Packet, room: seq<byte>, prev: Nsh, sph: Sph, prevProto: seq<byte>)
      requires |pkt.data| >= ETH_HLEN && |room| == ENCAP_LEN
      requires prevProto == pkt.data[12..14]
      modifies pkt
      ensures pkt.data == NshWire(old(pkt.data)[..6], old(pkt.data)[6..12], WithSph(prev, sph), old(pkt.data))
    {
      ghost var f, m := pkt.data, pkt.data[..12] + ETH_P_NSH;
      pkt.OpenMacRoom(room);
      SplitFrame(f, room);
      pkt.SetProtos(ETH_P_NSH, prevProto);
      assert pkt.data == m + room[..24] + f;
      PutNsh(pkt, m, room[..24], f, prev, sph);
      assert f[..6] + f[6..12] == f[..12];
    }

    /** Puts the stored NSH behind `head` and the new path header into it. */
    static method PutNsh(pkt: Packet, ghost head: seq<byte>, ghost room: seq<byte>, ghost f: Frame, prev: Nsh, sph: Sph)
      requires |head| == 14 && |room| == 24 && pkt.data == head + room + f
      modifies pkt
      ensures pkt.data == head + WithSph(prev, sph) + f
    {
      SpliceMiddle(head, room, f, prev);
      pkt.Store(14, prev);
      SplitNsh(head, prev, f);
      ghost var front, back := head + prev[..4], prev[8..] + f;
      SpliceMiddle(front, prev[4..8], back, sph);
      pkt.Store(18, sph);
      assert front + sph + back == head + (prev[..4] + sph + prev[8..]) + f;
    }

    static lemma SplitNsh(head: seq<byte>, n: Nsh, f: Frame)
      ensures head + n + f == (head + n[..4]) + n[4..8] + (n[8..] + f)
    {
    }

    /** The frame behind its copied MAC header, cut where the EtherTypes are. */
    static lemma SplitFrame(f: Frame, room: seq<byte>)
      requires |f| >= ETH_HLEN && |room| == ENCAP_LEN
      ensures var d := f[..14] + room[..24] + f;
              d[..12] == f[..12] && d[14..50] == room[..24] + f[..12] && d[52..] == f[14..]
      ensures f[..12] + f[12..14] + f[14..] == f
    {
    }

    method SfcForwarding(pkt: Packet) returns (v: Verdict)
      modifies pkt
      ensures Egress(v, pkt.data) == Forward(State(), old(pkt.data))
    {
      var data := pkt.data;
      if ETH_HLEN > |data| { return Drop; }
      if ETH_HLEN + NSH_LEN > |data| { return Drop; }
      var servPath: Sph := data[18..22];
      if servPath in fwdTable {
        var nextHop := fwdTable[servPath];
        if nextHop.EndOfChain() { return Drop; }
        var ret := SetSrcMac(pkt, EGRESS_MAC);
        if ret != 0 { return Drop; }
        pkt.Store(0, nextHop.address);
        assert pkt.data == nextHop.address + srcMac[EGRESS_MAC] + data[12..];
        return Pass;
      }
      return Drop;
    }

    /** The two filters in the order `load_egress_stages` attaches them. */
    method RunEgress(pkt: Packet, room: Option<seq<byte>>) returns (v: Verdict)
      requires room.Some? ==> |room.value| == ENCAP_LEN
      modifies pkt
      ensures Egress(v, pkt.data) == EgressPipeline(State(), old(pkt.data), room.Some?).0
      ensures v != Next
    {
      v := EncapNsh(pkt, room);
      if v == Next { v := SfcForwarding(pkt); }
    }
  }
}
