/** What the stages amount to when they run one after the other, inside a node and from node to node. */
module Pipeline {
  import opened Bytes
  import opened Frames
  import opened Stages

  /* ----- egress: two filters, one lookup ----- */

  /** A frame leaves a node plain, leaves it behind an NSH for the next node, or does not leave at all. */
  datatype Out = Plain(frame: Frame) | Wire(frame: Frame) | Lost

  function Observe(r: (Egress, bool)): Out {
    if r.0.verdict != Pass then Lost else if r.1 then Wire(r.0.frame) else Plain(r.0.frame)
  }

  function PlainOut(st: NodeState, f: Frame): Out
    requires |f| >= ETH_HLEN
  {
    if EGRESS_MAC in st.srcMac then Plain(WithSrcMac(f, st.srcMac[EGRESS_MAC])) else Lost
  }

  /** Egress as a single decision on the stored header and the rule for its successor. */
  function EgressSpec(st: NodeState, f: Frame, grown: bool): Out {
    match FlowOf(f)
    case None => Plain(f)
    case Some(k) =>
      if k !in st.nshData then PlainOut(st, f)
      else if SiOf(st.nshData[k]) == 0 then Lost
      else
        var sph := Decrement(SphOf(st.nshData[k]));
        if sph !in st.fwdTable then Lost
        else if st.fwdTable[sph].EndOfChain() then PlainOut(st, f)
        else if !grown || EGRESS_MAC !in st.srcMac then Lost
        else Wire(NshWire(st.fwdTable[sph].address, st.srcMac[EGRESS_MAC], WithSph(st.nshData[k], sph), f))
  }

  lemma EgressRefinesSpec(st: NodeState, f: Frame, grown: bool)
    ensures Observe(EgressPipeline(st, f, grown)) == EgressSpec(st, f, grown)
  {
    hide TupleAt, NshWire, Forward, WithSph, SphOf;
    if Encap(st, f, grown).verdict == Next {
      var n := st.nshData[FlowOf(f).value];
      IndexIsLast(n);
      ForwardOfWire(st, f[..6], f[6..12], WithSph(n, Decrement(SphOf(n))), f);
      SphReplaced(n, Decrement(SphOf(n)));
    }
  }

  lemma IndexIsLast(n: Nsh)
    ensures SphOf(n)[3] == SiOf(n)
  {
  }

  lemma SphReplaced(n: Nsh, sph: Sph)
    ensures SphOf(WithSph(n, sph)) == sph
  {
  }

  /** Forward looks the path header up and replaces both addresses. */
  lemma ForwardOfWire(st: NodeState, dst: Mac, src: Mac, n: Nsh, f: Frame)
    ensures Forward(st, NshWire(dst, src, n, f)) ==
            if SphOf(n) !in st.fwdTable || st.fwdTable[SphOf(n)].EndOfChain() || EGRESS_MAC !in st.srcMac
            then Egress(Drop, NshWire(dst, src, n, f))
            else Egress(Pass, NshWire(st.fwdTable[SphOf(n)].address, st.srcMac[EGRESS_MAC], n, f))
  {
    hide SphOf;
    var w := NshWire(dst, src, n, f);
    NshWireFields(dst, src, n, f);
    assert w[12..] == ETH_P_NSH + n + f;
    if SphOf(n) in st.fwdTable && EGRESS_MAC in st.srcMac {
      var dst': Mac, src': Mac := st.fwdTable[SphOf(n)].address, st.srcMac[EGRESS_MAC];
      assert dst' + src' + w[12..] == NshWire(dst', src', n, f);
    }
  }

  /** The "second end of chain" branch of the forward stage is dead behind encap. */
  lemma ForwardNeverSeesTheEnd(st: NodeState, f: Frame, grown: bool)
    requires Encap(st, f, grown).verdict == Next
    ensures var g := Encap(st, f, grown).frame;
            |g| >= ENCAP_LEN && (g[18..22] in st.fwdTable ==> !st.fwdTable[g[18..22]].EndOfChain())
  {
    var n := st.nshData[FlowOf(f).value];
    var n' := WithSph(n, Decrement(SphOf(n)));
    NshWireFields(f[..6], f[6..12], n', f);
    assert SphOf(n') == Decrement(SphOf(n));
  }

  /* ----- one hop, byte for byte ----- */

  ghost predicate Unicast(m: Mac) { m[0] % 2 == 0 }

  /** Decap takes the frame of the wire format apart again, unless the next protocol is not Ethernet. */
  lemma DecapOfWire(st: NodeState, dst: Mac, src: Mac, n: Nsh, f: Frame, k: Key)
    requires INGRESS_MAC in st.srcMac && st.srcMac[INGRESS_MAC] == dst && Unicast(dst)
    requires FlowOf(f) == Some(k)
    ensures Decap(st, NshWire(dst, src, n, f)) ==
            if NextProtoOf(n) == NSH_NEXT_PROTO_ETHER then Ingress(Pass, f, MapUpdate(st.nshData, k, n))
            else Ingress(Drop, NshWire(dst, src, n, f), st.nshData)
  {
    hide NshWire, TupleOf;
    var w := NshWire(dst, src, n, f);
    NshWireFields(dst, src, n, f);
    assert w[0] == w[..6][0];
    assert w[52..] == w[38..][14..];
  }

  /** Encap, forward and the next decap give the frame back and move the header, one index further, to the
      next table. */
  lemma HopRoundTrip(a: NodeState, b: NodeState, f: Frame, w: Frame, k: Key)
    requires FlowOf(f) == Some(k) && EgressSpec(a, f, true) == Wire(w)
    requires NextProtoOf(a.nshData[k]) == NSH_NEXT_PROTO_ETHER
    requires INGRESS_MAC in b.srcMac && Unicast(b.srcMac[INGRESS_MAC]) && w[..6] == b.srcMac[INGRESS_MAC]
    ensures Decap(b, w) ==
            Ingress(Pass, f, MapUpdate(b.nshData, k, WithSph(a.nshData[k], Decrement(SphOf(a.nshData[k])))))
  {
    var n := a.nshData[k];
    var sph := Decrement(SphOf(n));
    var dst, src, n' := a.fwdTable[sph].address, a.srcMac[EGRESS_MAC], WithSph(n, sph);
    NshWireFields(dst, src, n', f);
    DecapOfWire(b, dst, src, n', f, k);
  }

  /* ----- what ingress does with every other frame ----- */

  /** A unicast frame for the node. */
  predicate Addressed(st: NodeState, f: Frame) {
    |f| >= 14 && f[0] % 2 == 0 && INGRESS_MAC in st.srcMac && f[..6] == st.srcMac[INGRESS_MAC]
  }

  /** Group addresses, frames cut short and all frames of a node without an address pass; other unicast
      addresses are dropped. */
  lemma DecapOfOthers(st: NodeState, f: Frame)
    requires !Addressed(st, f)
    ensures Decap(st, f).frame == f && Decap(st, f).nshData == st.nshData
    ensures Decap(st, f).verdict == if |f| >= 14 && f[0] % 2 == 0 && INGRESS_MAC in st.srcMac then Drop else Pass
  {
  }

  /** Plain traffic for the node, neither NSH nor tagged, is passed up as it is. */
  lemma DecapOfPlain(st: NodeState, f: Frame)
    requires Addressed(st, f) && f[12..14] != [0x89, 0x4F] && f[12..14] != [0x81, 0x00]
    ensures Decap(st, f) == Ingress(Pass, f, st.nshData)
  {
  }

  /** An NSH frame is taken apart exactly if there is an Ethernet frame in it with a flow key, whatever its
      EtherType; else it is dropped. */
  lemma DecapOfNsh(st: NodeState, f: Frame)
    requires Addressed(st, f) && f[12..14] == [0x89, 0x4F]
    ensures Decap(st, f) ==
            if |f| >= 72 && f[17] == 3 && TupleOf(f[52..]).Some?
            then Ingress(Pass, f[38..], MapUpdate(st.nshData, TupleOf(f[52..]).value, f[14..38]))
            else Ingress(Drop, f, st.nshData)
  {
    hide TupleOf;
  }

  /** One VLAN tag changes nothing about an NSH frame; any other tagged frame is passed up as it is. */
  lemma DecapBehindTag(st: NodeState, f: Frame, tci: seq<byte>)
    requires Addressed(st, f) && |tci| == 2
    ensures var t := f[..12] + [0x81, 0x00] + tci + f[12..];
            var d, d' := Decap(st, f), Decap(st, t);
            if f[12..14] == [0x89, 0x4F] then
              && d'.verdict == d.verdict && d'.nshData == d.nshData
              && d'.frame == (if d.verdict == Pass then d.frame else t)
            else d' == Ingress(Pass, t, st.nshData)
  {
    hide TupleOf;
    var t := f[..12] + [0x81, 0x00] + tci + f[12..];
    assert t[..6] == f[..6] && t[0] == f[0] && t[12..14] == [0x81, 0x00] && t[16..18] == f[12..14];
    if f[12..14] == [0x89, 0x4F] { SameBehindTag(f, t); }
  }

  lemma SameBehindTag(f: Frame, t: Frame)
    requires |f| >= 14 && |t| == |f| + 4 && t[16..] == f[12..]
    ensures OpenAt(t, 18) == OpenAt(f, 14)
  {
    hide TupleOf;
    if |f| >= 72 {
      assert t[21] == t[16..][5] && f[17] == f[12..][5];
      assert t[18..42] == t[16..][2..26] && f[14..38] == f[12..][2..26];
      assert t[42..] == t[16..][26..] && f[38..] == f[12..][26..];
      assert t[56..] == t[42..][14..] && f[52..] == f[38..][14..];
    }
  }

  /** A tagged frame without a whole tag is dropped. */
  lemma DecapOfCutTag(st: NodeState, f: Frame)
    requires Addressed(st, f) && f[12..14] == [0x81, 0x00] && |f| < 18
    ensures Decap(st, f) == Ingress(Drop, f, st.nshData)
  {
  }

  /* ----- what egress does, case by case ----- */

  /** A frame sent on plain, or lost where the node has no egress address. */
  ghost predicate LeavesPlain(st: NodeState, f: Frame, r: Out) {
    if EGRESS_MAC !in st.srcMac then r == Lost
    else |f| >= 14 && r == Plain(f[..6] + st.srcMac[EGRESS_MAC] + f[12..])
  }

  /** Frames without a flow key leave untouched, those of unknown flows with a new source address. Those of
      known flows are lost if their header's index is zero or no rule is stored for the header that follows;
      they leave plain if that rule's lowest flag is set; else they are lost without room or address. */
  lemma EgressByCase(st: NodeState, f: Frame, grown: bool)
    ensures var r := Observe(EgressPipeline(st, f, grown));
            match FlowOf(f)
            case None => r == Plain(f)
            case Some(k) =>
              if k !in st.nshData then LeavesPlain(st, f, r)
              else
                var n := st.nshData[k];
                if n[7] == 0 then r == Lost
                else
                  var next := n[4..7] + [n[7] - 1];
                  if next !in st.fwdTable then r == Lost
                  else if st.fwdTable[next].flags % 2 == 1 then LeavesPlain(st, f, r)
                  else r == Lost <==> !grown || EGRESS_MAC !in st.srcMac
  {
    hide TupleOf, NshWire, EgressPipeline;
    EgressRefinesSpec(st, f, grown);
    if FlowOf(f).Some? && FlowOf(f).value in st.nshData {
      var n := st.nshData[FlowOf(f).value];
      assert SphOf(n)[..3] == n[4..7];
    }
  }

  /** What leaves with an NSH: the rule's address, the node's, the stored header one index further, and the
      frame as it was. */
  lemma WireFields(st: NodeState, f: Frame, k: Key, w: Frame)
    requires FlowOf(f) == Some(k) && k in st.nshData && st.nshData[k][7] > 0
    requires Observe(EgressPipeline(st, f, true)) == Wire(w)
    ensures var n := st.nshData[k];
            var next := n[4..7] + [n[7] - 1];
            && next in st.fwdTable && EGRESS_MAC in st.srcMac && |w| == 38 + |f|
            && w[..6] == st.fwdTable[next].address && w[6..12] == st.srcMac[EGRESS_MAC] && w[12..14] == [0x89, 0x4F]
            && w[14..38] == n[..4] + next + n[8..] && w[38..] == f
  {
    hide FlowOf, NshWire, EgressPipeline;
    EgressRefinesSpec(st, f, true);
    var n := st.nshData[k];
    var next := Decrement(SphOf(n));
    assert SphOf(n)[..3] == n[4..7];
    NshWireFields(st.fwdTable[next].address, st.srcMac[EGRESS_MAC], WithSph(n, next), f);
  }

  /** The forward stage on any frame at all. */
  lemma ForwardByCase(st: NodeState, f: Frame)
    ensures var e := Forward(st, f);
            if |f| >= 38 && f[18..22] in st.fwdTable && st.fwdTable[f[18..22]].flags % 2 == 0 && EGRESS_MAC in st.srcMac
            then e.verdict == Pass && |e.frame| == |f| && e.frame[..6] == st.fwdTable[f[18..22]].address
                 && e.frame[6..12] == st.srcMac[EGRESS_MAC] && e.frame[12..] == f[12..]
            else e == Egress(Drop, f)
  {
  }

  /* ----- stored headers ----- */

  /** Every stored header announces an Ethernet frame. */
  ghost predicate Stored(t: NshTable) {
    forall k :: k in t ==> NextProtoOf(t[k]) == NSH_NEXT_PROTO_ETHER
  }

  lemma DecapKeepsStored(st: NodeState, w: Frame)
    requires Stored(st.nshData)
    ensures Stored(Decap(st, w).nshData)
  {
    if |w| >= ETH_HLEN && NshPlaceOf(w).At? && OpenAt(w, NshPlaceOf(w).offset).Some? {
      var o := NshPlaceOf(w).offset;
      assert w[o..o + NSH_LEN][3] == w[o + 3];
    }
  }

  /* ----- loop freedom over arbitrary tables ----- */

  type Function = Frame -> Frame

  /** A service function that leaves alone the bytes the flow key is read from. */
  ghost predicate KeepsFlow(sf: Function) {
    forall f :: FlowOf(sf(f)) == FlowOf(f)
  }

  /** The NSH frame `w` is taken apart by the ingress stage of the node. */
  predicate Accepts(st: NodeState, w: Frame) {
    && |w| >= ETH_HLEN && INGRESS_MAC in st.srcMac && w[0] % 2 == 0 && w[..6] == st.srcMac[INGRESS_MAC]
    && NshPlaceOf(w).At? && OpenAt(w, NshPlaceOf(w).offset).Some?
  }

  function Content(w: Frame): Opened
    requires |w| >= ETH_HLEN && NshPlaceOf(w).At? && OpenAt(w, NshPlaceOf(w).offset).Some?
  {
    OpenAt(w, NshPlaceOf(w).offset).value
  }

  /** One node visit: ingress stage, service function, egress stages. */
  function Visit(st: NodeState, sf: Function, w: Frame, grown: bool): Out
    requires Accepts(st, w)
  {
    var d := Decap(st, w);
    EgressSpec(st.(nshData := d.nshData), sf(d.frame), grown)
  }

  lemma VisitDecrements(st: NodeState, sf: Function, w: Frame, grown: bool, w': Frame)
    requires Accepts(st, w) && KeepsFlow(sf) && Visit(st, sf, w, grown) == Wire(w')
    ensures SiOf(Content(w).nsh) > 0
    ensures |w'| >= ENCAP_LEN && NshPlaceOf(w') == At(ETH_HLEN)
    ensures w'[18..22] == Decrement(SphOf(Content(w).nsh))
    ensures w'[38..] == sf(Content(w).inner)
  {
    hide FlowOf, OpenAt, NshPlaceOf, NshWire, SphOf, WithSph;
    var x := Content(w);
    var d := Decap(st, w);
    assert FlowOf(sf(x.inner)) == FlowOf(x.inner);
    ContentFlow(w);
    DecapOpens(st, w);
    IndexIsLast(x.nsh);
    var st' := st.(nshData := d.nshData);
    var sph := Decrement(SphOf(x.nsh));
    SphReplaced(x.nsh, sph);
    WireIsOpen(st'.fwdTable[sph].address, st'.srcMac[EGRESS_MAC], WithSph(x.nsh, sph), sf(x.inner));
  }

  lemma DecapOpens(st: NodeState, w: Frame)
    requires Accepts(st, w)
    ensures var x := Content(w); Decap(st, w) == Ingress(Pass, x.inner, MapUpdate(st.nshData, x.key, x.nsh))
  {
    hide OpenAt, NshPlaceOf;
  }

  lemma WireIsOpen(dst: Mac, src: Mac, n: Nsh, f: Frame)
    ensures var w := NshWire(dst, src, n, f);
            NshPlaceOf(w) == At(ETH_HLEN) && w[18..22] == SphOf(n) && w[38..] == f
  {
    NshWireFields(dst, src, n, f);
  }

  /** A journey through any nodes with any tables, function and helper outcome at each: frame i + 1 is what
      visit i emits. */
  datatype Leg = Leg(node: NodeState, sf: Function, grown: bool)

  ghost predicate Leads(leg: Leg, w: Frame, w': Frame) {
    KeepsFlow(leg.sf) && Accepts(leg.node, w) && Visit(leg.node, leg.sf, w, leg.grown) == Wire(w')
  }

  ghost predicate Journey(legs: seq<Leg>, wires: seq<Frame>) {
    && |wires| == |legs| + 1
    && (forall i :: 0 <= i < |legs| ==> Leads(legs[i], wires[i], wires[i + 1]))
  }

  /** The path header of a frame that some node accepts. */
  function SphIn(w: Frame): Sph
    requires |w| >= ETH_HLEN && NshPlaceOf(w).At? && OpenAt(w, NshPlaceOf(w).offset).Some?
  {
    SphOf(Content(w).nsh)
  }

  lemma LeadsDecrements(leg: Leg, w: Frame, w': Frame)
    requires Leads(leg, w, w')
    ensures Accepts(leg.node, w) && SphIn(w)[3] > 0
    ensures |w'| >= ENCAP_LEN && w'[18..22] == Decrement(SphIn(w))
    ensures forall st :: Accepts(st, w') ==> SphIn(w') == Decrement(SphIn(w))
  {
    hide KeepsFlow, Visit, OpenAt, NshPlaceOf, SphOf;
    VisitDecrements(leg.node, leg.sf, w, leg.grown, w');
    IndexIsLast(Content(w).nsh);
    forall st | Accepts(st, w') ensures SphIn(w') == w'[18..22] { OpenedSph(w'); }
  }

  lemma OpenedSph(w: Frame)
    requires OpenAt(w, ETH_HLEN).Some?
    ensures |w| >= ENCAP_LEN && SphOf(OpenAt(w, ETH_HLEN).value.nsh) == w[18..22]
  {
    hide TupleAt;
    assert w[14..38][4..8] == w[18..22];
  }

  /** Along every journey the path id stays and the index falls by one a visit, so 255 visits are the limit. */
  lemma {:induction false} LoopFreedom(legs: seq<Leg>, wires: seq<Frame>)
    requires Journey(legs, wires) && |legs| > 0
    ensures Accepts(legs[0].node, wires[0])
    ensures |legs| <= SphIn(wires[0])[3]
    ensures |wires[|legs|]| >= ENCAP_LEN
    ensures wires[|legs|][18..22] == SphIn(wires[0])[..3] + [SphIn(wires[0])[3] - |legs|]
  {
    hide Leads, KeepsFlow, Accepts, Visit, OpenAt, NshPlaceOf, SphIn;
    LeadsDecrements(legs[0], wires[0], wires[1]);
    if |legs| > 1 {
      var legs', wires' := legs[1..], wires[1..];
      JourneySuffix(legs, wires);
      LoopFreedom(legs', wires');
      assert wires'[|legs'|] == wires[|legs|];
    }
  }

  lemma JourneySuffix(legs: seq<Leg>, wires: seq<Frame>)
    requires Journey(legs, wires) && |legs| > 0
    ensures Journey(legs[1..], wires[1..])
  {
    forall i | 0 <= i < |legs| - 1 ensures Leads(legs[1..][i], wires[1..][i], wires[1..][i + 1]) {
      assert Leads(legs[i + 1], wires[i + 1], wires[i + 2]);
    }
  }

  /** With the index used up, no table makes a node send the packet on: it is lost, or leaves the
      chain plain where the ingress stage could not save its header. */
  lemma ExhaustedIndex(st: NodeState, sf: Function, w: Frame, grown: bool)
    requires Accepts(st, w) && KeepsFlow(sf) && SiOf(Content(w).nsh) == 0
    ensures !Visit(st, sf, w, grown).Wire?
    ensures FlowOf(Content(w).inner) == Some(Content(w).key) && Content(w).key in Decap(st, w).nshData
            ==> Visit(st, sf, w, grown) == Lost
  {
    if Visit(st, sf, w, grown).Wire? {
      VisitDecrements(st, sf, w, grown, Visit(st, sf, w, grown).frame);
    }
    var x := Content(w);
    assert FlowOf(sf(x.inner)) == FlowOf(x.inner);
  }

  /** The header of an arriving packet is saved exactly where its key is known or a slot is free; otherwise
      the egress stages take the packet for plain traffic and it leaves its chain at this node. */
  lemma FullTableEndsTheChain(st: NodeState, sf: Function, w: Frame, grown: bool)
    requires Accepts(st, w) && KeepsFlow(sf)
    ensures var x, t := Content(w), Decap(st, w).nshData;
            var room := x.key in st.nshData || |st.nshData| < 2048;
            && (x.key in t && t[x.key] == x.nsh <==> room)
            && (!room ==>
                  Visit(st, sf, w, grown) ==
                  (if FlowOf(x.inner).None? then Plain(sf(x.inner)) else PlainOut(st, sf(x.inner))))
  {
    hide TupleAt, NshPlaceOf;
    var x := Content(w);
    assert FlowOf(sf(x.inner)) == FlowOf(x.inner);
    ContentFlow(w);
  }

  /** The inner frame of an NSH frame has the key it was stored under, or no IPv4 EtherType and no key. */
  lemma ContentFlow(w: Frame)
    requires |w| >= ETH_HLEN && NshPlaceOf(w).At? && OpenAt(w, NshPlaceOf(w).offset).Some?
    ensures FlowOf(Content(w).inner) == if Content(w).inner[12..14] == ETH_P_IP then Some(Content(w).key) else None
  {
    hide TupleOf;
    var o := NshPlaceOf(w).offset;
    assert Content(w).inner[14..] == w[o + NSH_LEN + ETH_HLEN..];
  }
}
