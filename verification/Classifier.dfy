/** The classifier that puts the first NSH on a packet, in its TC and its XDP build. */
module Classifier {
  import opened Bytes
  import opened Frames
  import opened Stages
  import opened Pipeline

  datatype ClsEntry = ClsEntry(sph: Sph, nextHop: Mac)

  type ClsTable = map<Key, ClsEntry>

  function ClassifySpec(table: ClsTable, srcMac: map<nat, Mac>, f: Frame, grown: bool, context: seq<byte>): Out
    requires |context| == 16
  {
    match FlowOf(f)
    case None => Plain(f)
    case Some(k) =>
      if EGRESS_MAC !in srcMac then Lost
      else if k !in table then Plain(WithSrcMac(f, srcMac[EGRESS_MAC]))
      else if !grown then Lost
      else Wire(NshWire(table[k].nextHop, srcMac[EGRESS_MAC], FreshNsh(table[k].sph, context), f))
  }

  class ClassifierNode {
    var clsTable: ClsTable
    var srcMac: map<nat, Mac>

    constructor (table: ClsTable, macs: map<nat, Mac>)
      ensures clsTable == table && srcMac == macs
    {
      clsTable, srcMac := table, macs;
    }

    /** `classify_tc`; `xdp` is the compile-time switch. The context words stay what the new room held there. */
    method Classify(pkt: Packet, room: Option<seq<byte>>, xdp: bool) returns (out: Out)
      requires room.Some? ==> |room.value| == ENCAP_LEN
      modifies pkt
      ensures var context := if room.None? then seq(16, _ => 0)
                             else if xdp then room.value[22..] else room.value[8..24];
              out == ClassifySpec(clsTable, srcMac, old(pkt.data), room.Some?, context)
      ensures out != Lost ==> pkt.data == out.frame
    {
      var data := pkt.data;
      if ETH_HLEN + IP_HLEN > |data| { return Plain(data); }
      if data[12..14] != ETH_P_IP { return Plain(data); }
      var ret, key := GetTuple(data, ETH_HLEN);
      if ret < 0 { return Plain(data); }
      if key !in clsTable {
        if EGRESS_MAC !in srcMac { return Lost; }
        pkt.Store(6, srcMac[EGRESS_MAC]);
        return Plain(pkt.data);
      }
      var cls, prevProto := clsTable[key], data[12..14];
      if room.None? { return Lost; }
      MakeRoom(pkt, room.value, xdp, prevProto);
      if EGRESS_MAC !in srcMac { return Lost; }
      FillHeaders(pkt, Tail(room.value, xdp), data, cls, srcMac[EGRESS_MAC]);
      return Wire(pkt.data);
    }

    /** The part of the new room that becomes the NSH. */
    static ghost function Tail(room: seq<byte>, xdp: bool): seq<byte>
      requires |room| == ENCAP_LEN
    {
      if xdp then room[14..] else room[..24]
    }

    /** Opens the room, in front of the frame or behind its MAC header, and sets both EtherTypes. */
    static method MakeRoom(pkt: Packet, room: seq<byte>, xdp: bool, prevProto: seq<byte>)
      requires |room| == ENCAP_LEN && |pkt.data| >= ETH_HLEN && prevProto == pkt.data[12..14]
      modifies pkt
      ensures |pkt.data| == ENCAP_LEN + |old(pkt.data)|
      ensures pkt.data[12..] == ETH_P_NSH + Tail(room, xdp) + old(pkt.data)
    {
      ghost var f, tail := pkt.data, Tail(room, xdp);
      if xdp {
        pkt.Push(room);
      } else {
        pkt.OpenMacRoom(room);
      }
      ghost var d := pkt.data;
      assert d == d[..14] + tail + f;
      pkt.SetProtos(ETH_P_NSH, prevProto);
      assert d[14..50] == tail + f[..12] && d[52..] == f[14..];
      assert pkt.data[12..] == ETH_P_NSH + (tail + f[..12]) + f[12..14] + f[14..];
    }

    /** The final assignments: outer addresses, then the first eight bytes of the NSH. */
    static method FillHeaders(pkt: Packet, ghost tail: seq<byte>, ghost f: Frame, cls: ClsEntry, src: Mac)
      requires |tail| == NSH_LEN && |pkt.data| == ENCAP_LEN + |f| && pkt.data[12..] == ETH_P_NSH + tail + f
      modifies pkt
      ensures pkt.data == NshWire(cls.nextHop, src, FreshNsh(cls.sph, tail[8..]), f)
    {
      hide FreshNsh;
      pkt.Store(6, src);
      pkt.Store(0, cls.nextHop);
      ghost var head := cls.nextHop + src + ETH_P_NSH;
      assert pkt.data == head + tail + f;
      FillNsh(pkt, head, tail, f, cls.sph);
    }

    static method FillNsh(pkt: Packet, ghost head: seq<byte>, ghost tail: seq<byte>, ghost f: Frame, sph: Sph)
      requires |head| == 14 && |tail| == NSH_LEN && pkt.data == head + tail + f
      modifies pkt
      ensures pkt.data == head + FreshNsh(sph, tail[8..]) + f
    {
      SplitTail(head, tail, f);
      SpliceMiddle(head, tail[..4], tail[4..] + f, NSH_BASE);
      pkt.Store(14, NSH_BASE);
      ghost var head' := head + NSH_BASE;
      SplitTail(head', tail[4..], f);
      assert tail[4..][..4] == tail[4..8] && tail[4..][4..] == tail[8..];
      SpliceMiddle(head', tail[4..8], tail[8..] + f, sph);
      pkt.Store(18, sph);
      JoinHeader(head, sph, tail[8..], f);
    }

    static lemma SplitTail(head: seq<byte>, tail: seq<byte>, f: Frame)
      requires |tail| >= 4
      ensures head + tail + f == head + tail[..4] + (tail[4..] + f)
      ensures head + (tail + f) == head + tail[..4] + (tail[4..] + f)
    {
    }

    static lemma JoinHeader(head: seq<byte>, sph: Sph, context: seq<byte>, f: Frame)
      requires |context| == 16
      ensures head + NSH_BASE + sph + (context + f) == head + FreshNsh(sph, context) + f
    {
    }
  }

  /** The outcomes agree but for the sixteen context bytes at offset 22. */
  ghost predicate SameButContext(a: Out, b: Out, inner: Frame) {
    if a.Wire? then
      && b.Wire? && |a.frame| == |b.frame| >= ENCAP_LEN
      && a.frame[..22] == b.frame[..22] && a.frame[38..] == b.frame[38..] == inner
    else a == b
  }

  /** The TC and the XDP build, run on equal frames and tables with whatever bytes in the new room, agree on
      every frame but for the context bytes, which are those the room held at their place. */
  method BuildsAgree(table: ClsTable, macs: map<nat, Mac>, f: Frame, tcRoom: seq<byte>, xdpRoom: seq<byte>, grown: bool)
    returns (tc: Out, xdp: Out)
    requires |tcRoom| == ENCAP_LEN && |xdpRoom| == ENCAP_LEN
    ensures SameButContext(tc, xdp, f)
    ensures tc.Wire? ==> |tc.frame| >= 38 && tc.frame[22..38] == tcRoom[8..24]
    ensures xdp.Wire? ==> |xdp.frame| >= 38 && xdp.frame[22..38] == xdpRoom[22..]
  {
    hide ClassifySpec;
    var node := new ClassifierNode(table, macs);
    var tcPkt := new Packet(f);
    var xdpPkt := new Packet(f);
    tc := node.Classify(tcPkt, if grown then Some(tcRoom) else None, false);
    xdp := node.Classify(xdpPkt, if grown then Some(xdpRoom) else None, true);
    ContextsOnly(table, macs, f, grown, if grown then tcRoom[8..24] else seq(16, _ => 0),
                 if grown then xdpRoom[22..] else seq(16, _ => 0));
  }

  lemma ContextsOnly(table: ClsTable, macs: map<nat, Mac>, f: Frame, grown: bool, c1: seq<byte>, c2: seq<byte>)
    requires |c1| == 16 && |c2| == 16
    ensures var tc, xdp := ClassifySpec(table, macs, f, grown, c1), ClassifySpec(table, macs, f, grown, c2);
            && SameButContext(tc, xdp, f) && (tc.Wire? ==> grown)
            && (tc.Wire? ==> |tc.frame| >= 38 && tc.frame[22..38] == c1)
            && (xdp.Wire? ==> |xdp.frame| >= 38 && xdp.frame[22..38] == c2)
  {
    hide FlowOf;
    var tc, xdp := ClassifySpec(table, macs, f, grown, c1), ClassifySpec(table, macs, f, grown, c2);
    if tc.Wire? {
      var k := FlowOf(f).value;
      var head := table[k].nextHop + macs[EGRESS_MAC] + ETH_P_NSH + (NSH_BASE + table[k].sph);
      assert tc.frame == head + c1 + f && xdp.frame == head + c2 + f;
    }
  }

  /** Without a rule for the flow the classifier behaves as the egress stages of a node without headers. */
  lemma NoRuleIsEgress(table: ClsTable, macs: map<nat, Mac>, fwd: FwdTable, f: Frame, grown: bool, context: seq<byte>)
    requires |context| == 16 && (FlowOf(f).Some? ==> FlowOf(f).value !in table)
    ensures ClassifySpec(table, macs, f, grown, context)
         == Observe(EgressPipeline(NodeState(map[], fwd, macs), f, grown))
  {
    hide TupleOf;
  }

  /** A frame without a flow key leaves untouched, one of a flow without a rule with a new source address. */
  lemma NoRuleFields(table: ClsTable, macs: map<nat, Mac>, f: Frame, grown: bool, context: seq<byte>)
    requires |context| == 16 && EGRESS_MAC in macs && (FlowOf(f).Some? ==> FlowOf(f).value !in table)
    ensures var out := ClassifySpec(table, macs, f, grown, context);
            if FlowOf(f).None? then out == Plain(f)
            else
              && out.Plain? && |out.frame| == |f| >= 14 && out.frame[..6] == f[..6]
              && out.frame[6..12] == macs[EGRESS_MAC] && out.frame[12..] == f[12..]
  {
    hide TupleOf;
  }

  /** A flow with a rule is sent towards the rule's next hop with the rule's path header, around the whole
      frame; it is lost exactly without room or address. */
  lemma RuleFields(table: ClsTable, macs: map<nat, Mac>, f: Frame, grown: bool, context: seq<byte>, k: Key)
    requires |context| == 16 && FlowOf(f) == Some(k) && k in table
    ensures var out := ClassifySpec(table, macs, f, grown, context);
            if grown && EGRESS_MAC in macs then
              && out.Wire? && |out.frame| == 38 + |f|
              && out.frame[..6] == table[k].nextHop && out.frame[6..12] == macs[EGRESS_MAC]
              && out.frame[12..18] == [0x89, 0x4F, 0x0F, 0xC2, 0x02, 0x03] && out.frame[18..22] == table[k].sph
              && out.frame[22..38] == context && out.frame[38..] == f
            else out == Lost
  {
    hide FlowOf;
    if grown && EGRESS_MAC in macs {
      var out := ClassifySpec(table, macs, f, grown, context);
      var n := FreshNsh(table[k].sph, context);
      NshWireFields(table[k].nextHop, macs[EGRESS_MAC], n, f);
      assert out.frame[12..18] == ETH_P_NSH + n[..4];
      assert out.frame[22..38] == n[8..];
    }
  }
}
