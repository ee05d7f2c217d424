/** Every interleaving keeps every packet on its chain. */
module Safety {
  import opened Bytes
  import opened Frames
  import opened Stages
  import opened Pipeline
  import opened Classifier
  import opened Config
  import opened Manager
  import opened Rules
  import opened Agent
  import opened Deployer
  import opened Agreement
  import opened Tables
  import opened Network

  /* ----- what well-formedness gives at a position ----- */

  lemma AtPosition(w: World, base: nat, c: int, i: int)
    requires WellFormed(w, base) && IsPosition(w.cfg, c, i)
    ensures w.cfg.chains[c].id < 0x100_0000 && i <= 254
    ensures OmitsEgress(w.plan, NodeAt(w.cfg, c, i)) <==> OutAt(w.cfg, c, i)
    ensures OmitsIngress(w.plan, NodeAt(w.cfg, c, i)) <==> InAt(w.cfg, c, i)
    ensures !OutAt(w.cfg, c, i) ==> EGRESS_MAC in w.macs(NodeAt(w.cfg, c, i))
    ensures !InAt(w.cfg, c, i) ==> ReachedAt(w, NodeAt(w.cfg, c, i))
  {
    hide Accepted, NoSharing, RoutesSound, RulesFit, Harmless, AddressOf, Unicast, OutAt, InAt, Connected;
    AgreementCondition(w.cfg, base, w.plan);
    if !InAt(w.cfg, c, i) { Reported(w, c, i); }
  }

  /** The manager knows the address at which the node's ingress stage takes frames. */
  ghost predicate ReachedAt(w: World, n: string) {
    HasIngress(w, n) && AddressOf(w.ag, n) == w.macs(n)[INGRESS_MAC]
  }

  /** The manager knows the address of every chain node that has one. */
  lemma Reported(w: World, c: int, i: int)
    requires Connected(w) && IsPosition(w.cfg, c, i) && INGRESS_MAC in w.macs(NodeAt(w.cfg, c, i))
    ensures AddressOf(w.ag, NodeAt(w.cfg, c, i)) == w.macs(NodeAt(w.cfg, c, i))[INGRESS_MAC]
  {
    hide Find;
    FindSound(w.cfg.functions, NodeAt(w.cfg, c, i));
  }

  lemma SameAddressSameNode(w: World, base: nat, n: string, m: string)
    requires WellFormed(w, base) && HasIngress(w, n) && HasIngress(w, m)
    requires w.macs(n)[INGRESS_MAC] == w.macs(m)[INGRESS_MAC]
    ensures n == m
  {
    hide Accepted, NoSharing, Connected, RoutesSound, RulesFit, Harmless, SoundIds;
  }

  lemma UnicastIngress(w: World, base: nat, n: string)
    requires WellFormed(w, base) && HasIngress(w, n)
    ensures Unicast(w.macs(n)[INGRESS_MAC])
  {
    hide Accepted, NoSharing, Connected, RoutesSound, RulesFit, Harmless, SoundIds, Unicast;
  }

  lemma RoutesFit(w: World, base: nat)
    requires WellFormed(w, base)
    ensures |w.route| <= MAX_ENTRIES
  {
    hide Accepted, NoSharing, MacsSound, Connected, RulesFit, Harmless, SoundIds;
  }

  lemma RouteStarts(w: World, base: nat, k: Key)
    requires WellFormed(w, base) && k in w.route
    ensures IsPosition(w.cfg, w.route[k], 0)
  {
    hide Accepted, NoSharing, MacsSound, Connected, RulesFit, Harmless, SoundIds;
  }

  lemma FunctionKeepsFlow(w: World, base: nat, n: string, f: Frame, g: Frame)
    requires WellFormed(w, base) && w.sf(n)(f, g)
    ensures FlowOf(g) == FlowOf(f)
  {
    hide Accepted, NoSharing, SoundIds, MacsSound, Connected, RoutesSound, RulesFit, FlowOf;
    assert Harmless(w.sf(n));
  }

  lemma RoomForRouted(route: map<Key, nat>, t: NshTable, k: Key, h: Nsh)
    requires |route| <= MAX_ENTRIES && k in route && t.Keys <= route.Keys
    ensures MapUpdate(t, k, h) == t[k := h]
  {
    if k !in t {
      assert t.Keys + {k} <= route.Keys;
      SubsetSize(t.Keys + {k}, route.Keys);
      assert |t.Keys + {k}| == |t.Keys| + 1;
      assert |t| == |t.Keys| && |route| == |route.Keys|;
    }
  }

  /* ----- every packet stays intact ----- */

  /** A node takes whatever frame is addressed to it apart, and changes the entry of its flow alone. */
  lemma DecapRouted(w: World, base: nat, s: System, k: Key, n: string, src: Mac, h: Nsh, g: Frame)
    requires WellFormed(w, base) && k in w.route && StoredRouted(w, s) && HasIngress(w, n) && FlowOf(g) == Some(k)
    ensures var f := NshWire(w.macs(n)[INGRESS_MAC], src, h, g);
            Decap(NodeStateOf(w, s, n), f) ==
              if NextProtoOf(h) == NSH_NEXT_PROTO_ETHER then Ingress(Pass, g, TableOf(s, n)[k := h])
              else Ingress(Drop, f, TableOf(s, n))
  {
    hide WellFormed, Decap, NextProtoOf, TableOf, FwdTableOf, FlowOf, NshWire, Unicast;
    UnicastIngress(w, base, n);
    DecapOfWire(NodeStateOf(w, s, n), w.macs(n)[INGRESS_MAC], src, h, g, k);
    RoutesFit(w, base);
    RoomForRouted(w.route, TableOf(s, n), k, h);
  }

  /** What encap lets through undecided is an NSH frame around the one it got. */
  lemma EncapWraps(st: NodeState, g: Frame)
    requires Encap(st, g, true).verdict == Next
    ensures Wraps(g, Encap(st, g, true).frame)
  {
    hide FlowOf, NshWire;
    assert |g| >= 14 by { FlowNeedsHeader(g); }
    var h := st.nshData[FlowOf(g).value];
    var dst: Mac, src: Mac := g[..6], g[6..12];
    assert Encap(st, g, true).frame == NshWire(dst, src, WithSph(h, Decrement(SphOf(h))), g);
  }

  lemma FlowNeedsHeader(g: Frame)
    requires FlowOf(g).Some?
    ensures |g| >= ETH_HLEN + IP_HLEN
  {
  }

  lemma ForwardWraps(st: NodeState, g: Frame, f: Frame)
    requires Wraps(g, f) && Forward(st, f).verdict == Pass
    ensures Wraps(g, Forward(st, f).frame)
  {
    var dst: Mac, src: Mac, h :| f == NshWire(dst, src, h, g);
    NshWireFields(dst, src, h, g);
    var dst', src' := st.fwdTable[f[18..22]].address, st.srcMac[EGRESS_MAC];
    assert f[12..] == ETH_P_NSH + h + g;
    assert Forward(st, f).frame == NshWire(dst', src', h, g);
  }

  lemma EnterIntact(w: World, f: Frame, context: seq<byte>)
    requires FlowOf(f).Some? && FlowOf(f).value in w.route && |context| == 16
    requires ClassifySpec(ClsTableOf(w), w.clsMacs, f, true, context).Wire?
    ensures Intact(w, Flight(f, [], [], OnWire(ClassifySpec(ClsTableOf(w), w.clsMacs, f, true, context).frame)))
  {
    hide FlowOf, NshWire, FreshNsh, ClsEntryOf;
    var e := ClsTableOf(w)[FlowOf(f).value];
    assert ClassifySpec(ClsTableOf(w), w.clsMacs, f, true, context).frame
        == NshWire(e.nextHop, w.clsMacs[EGRESS_MAC], FreshNsh(e.sph, context), f);
  }

  /** What becomes of a packet's frame and of the table at the receiving node. */
  lemma ReceiveIntact(w: World, base: nat, s: System, p: Flight, n: string) returns (h: Nsh)
    requires WellFormed(w, base) && StoredRouted(w, s) && Intact(w, p) && p.at.OnWire? && HasIngress(w, n)
    requires |p.at.frame| >= ETH_HLEN && p.at.frame[..6] == w.macs(n)[INGRESS_MAC]
    ensures var d, t := Decap(NodeStateOf(w, s, n), p.at.frame), TableOf(s, n);
            || (d.verdict == Pass && d.frame == Inner(p) && d.nshData == t[FlowOf(p.origin).value := h]
                && Holding(p.at.frame, h))
            || (d.verdict == Drop && d.nshData == t)
  {
    hide WellFormed, Decap, NextProtoOf, TableOf, FwdTableOf, FlowOf, NshWire, Made;
    var dst: Mac, src: Mac;
    dst, src, h :| p.at.frame == NshWire(dst, src, h, Inner(p));
    NshWireFields(dst, src, h, Inner(p));
    DecapRouted(w, base, s, FlowOf(p.origin).value, n, src, h, Inner(p));
  }

  /** The NSH of a frame. */
  ghost predicate Holding(f: Frame, h: Nsh) {
    |f| >= ENCAP_LEN && f[14..38] == h
  }

  lemma ServeIntact(w: World, base: nat, s: System, p: Flight, peer: string, g: Frame, p': Flight)
    requires WellFormed(w, base) && Intact(w, p) && p.at.AtFunction? && Served(w, s, p, peer, g, p')
    ensures Intact(w, p') && Inner(p') == g && FlowOf(g) == FlowOf(p.origin)
  {
    hide WellFormed, FlowOf, Encap, Wraps, Made, FwdTableOf, TableOf;
    FunctionKeepsFlow(w, base, p.at.node, p.at.frame, g);
    MadeOneMore(w, p, p', g);
    if !OmitsEgress(w.plan, p.at.node) && Encap(NodeStateOf(w, s, p.at.node), g, true).verdict == Next {
      EncapWraps(NodeStateOf(w, s, p.at.node), g);
    }
  }

  lemma MadeOneMore(w: World, p: Flight, p': Flight, g: Frame)
    requires Made(w, p) && p.at.AtFunction? && w.sf(p.at.node)(Inner(p), g)
    requires p' == p.(visited := p.visited + [p.at.node], frames := p.frames + [g], at := p'.at)
    ensures Made(w, p') && Inner(p') == g
  {
    forall i | 0 <= i < |p'.visited| ensures w.sf(p'.visited[i])(Input(p', i), p'.frames[i]) {
      if i < |p.visited| { assert Input(p', i) == Input(p, i); }
    }
  }

  lemma PlaceIntact(w: World, p: Flight, at: Place)
    requires Intact(w, p)
    requires match at
             case OnWire(f) => Wraps(Inner(p), f)
             case Between(_, f) => Wraps(Inner(p), f)
             case AtFunction(_, f) => f == Inner(p)
             case _ => true
    ensures Intact(w, p.(at := at))
  {
    hide FlowOf, Wraps;
  }

  /** Every step leaves every packet intact. */
  lemma StepIntact(w: World, base: nat, s: System, a: Action, s': System, x: nat)
    requires WellFormed(w, base) && Invariant(w, s) && Step(w, s, a, s') && x in s'.flights
    ensures Intact(w, s'.flights[x])
  {
    hide WellFormed, StoredRouted, ProxiesInPlace, EntriesInPosition, StraightOnChain;
    hide Intact, Decap, Encap, Forward, FlowOf, ClassifySpec, Served, HasIngress;
    if a.id == x {
      match a
      case Enter(id, f, context) => EnterIntact(w, f, context);
      case Receive(id, n) =>
        var h := ReceiveIntact(w, base, s, s.flights[id], n);
        PlaceIntact(w, s.flights[id], s'.flights[id].at);
      case Serve(id, peer, g) => ServeIntact(w, base, s, s.flights[id], peer, g, s'.flights[id]);
      case Emit(id) => EmitIntact(w, s, s.flights[id]);
      case Vanish(id) => PlaceIntact(w, s.flights[id], Vanished);
    }
  }

  lemma EmitIntact(w: World, s: System, p: Flight)
    requires Intact(w, p) && p.at.Between?
    ensures var e := Forward(NodeStateOf(w, s, p.at.node), p.at.frame);
            Intact(w, p.(at := if e.verdict == Pass then OnWire(e.frame) else Dropped))
  {
    hide FlowOf, Forward, Wraps, Made;
    var e := Forward(NodeStateOf(w, s, p.at.node), p.at.frame);
    if e.verdict == Pass { ForwardWraps(NodeStateOf(w, s, p.at.node), Inner(p), p.at.frame); }
    PlaceIntact(w, p, if e.verdict == Pass then OnWire(e.frame) else Dropped);
  }

  /* ----- one packet on its chain, one step ----- */

  /** The receiving node is the next one of the chain, and its ingress stage stores the header and unpacks the frame. */
  lemma ReceiveOne(w: World, base: nat, s: System, k: Key, c: int, i: int, n: string, g: Frame, f: Frame)
    returns (h: Nsh)
    requires WellFormed(w, base) && IsPosition(w.cfg, c, i) && !InAt(w.cfg, c, i)
    requires k in w.route && FlowOf(g) == Some(k) && StoredRouted(w, s)
    requires Carries(w, c, i, AddressOf(w.ag, NodeAt(w.cfg, c, i)), g, f)
    requires HasIngress(w, n) && |f| >= ETH_HLEN && f[..6] == w.macs(n)[INGRESS_MAC]
    ensures n == NodeAt(w.cfg, c, i) && HeaderAt(w.cfg, c, i, h)
    ensures Decap(NodeStateOf(w, s, n), f) == Ingress(Pass, g, TableOf(s, n)[k := h])
  {
    hide WellFormed, InAt, Decap, SphOf, NextProtoOf, PathSph, TableOf, FwdTableOf, FlowOf, NshWire, AddressOf;
    var src: Mac;
    src, h :| HeaderAt(w.cfg, c, i, h) && f == NshWire(AddressOf(w.ag, NodeAt(w.cfg, c, i)), src, h, g);
    NshWireFields(AddressOf(w.ag, NodeAt(w.cfg, c, i)), src, h, g);
    AtPosition(w, base, c, i);
    SameAddressSameNode(w, base, n, NodeAt(w.cfg, c, i));
    DecapRouted(w, base, s, k, n, src, h, g);
  }

  /** Encap at position i with the header of that position: the chain ends, or the next header is on. */
  ghost predicate EncapsAt(w: World, c: int, i: int, g: Frame, e: Egress)
    requires IsPosition(w.cfg, c, i)
  {
    var n := NodeAt(w.cfg, c, i);
    && |g| >= ETH_HLEN && EGRESS_MAC in w.macs(n)
    && if Last(w.cfg.chains[c], i) then e == Egress(Pass, WithSrcMac(g, w.macs(n)[EGRESS_MAC]))
       else e.verdict == Next && Carries(w, c, i + 1, g[..6], g, e.frame)
  }

  /** With the position's header in its table, encap ends the chain at the last node and re-encapsulates elsewhere. */
  lemma EncapOne(w: World, base: nat, s: System, k: Key, c: int, i: int, g: Frame)
    requires WellFormed(w, base) && IsPosition(w.cfg, c, i) && !OutAt(w.cfg, c, i)
    requires FlowOf(g) == Some(k) && HasHeader(w, s, k, c, i)
    ensures EncapsAt(w, c, i, g, Encap(NodeStateOf(w, s, NodeAt(w.cfg, c, i)), g, true))
  {
    hide WellFormed, OutAt, FwdTableOf, AddressOf, FlowOf, Encap, HeaderAt, EncapsAt, RuleReady;
    AtPosition(w, base, c, i);
    LookupAt(w, base, c, i);
    FlowNeedsHeader(g);
    EncapWithRule(w, NodeStateOf(w, s, NodeAt(w.cfg, c, i)), k, c, i, g);
  }

  /** The same of any table that holds the header and the rule of the position. */
  lemma EncapWithRule(w: World, st: NodeState, k: Key, c: int, i: int, g: Frame)
    requires IsPosition(w.cfg, c, i) && i <= 254 && FlowOf(g) == Some(k)
    requires k in st.nshData && HeaderAt(w.cfg, c, i, st.nshData[k]) && RuleReady(w, c, i, st.fwdTable)
    requires EGRESS_MAC in st.srcMac && st.srcMac == w.macs(NodeAt(w.cfg, c, i))
    ensures EncapsAt(w, c, i, g, Encap(st, g, true))
  {
    hide FlowOf, PathSph, NshWire, AddressOf, Encap, HeaderAt, SiOf, SphOf, WithSph, Decrement;
    var h := st.nshData[k];
    EncapKnown(st, k, g);
    Lowered(w, c, i, h);
    if !Last(w.cfg.chains[c], i) {
      var src: Mac := g[6..12];
      assert Encap(st, g, true) == Egress(Next, NshWire(g[..6], src, WithSph(h, Decrement(SphOf(h))), g));
    }
  }

  /** Taking one off the index of a position's header gives what its node looks up, and the next position's header. */
  lemma Lowered(w: World, c: int, i: int, h: Nsh)
    requires IsPosition(w.cfg, c, i) && i <= 254 && HeaderAt(w.cfg, c, i, h)
    ensures w.cfg.chains[c].id < 0x100_0000 && SiOf(h) > 0 && SphOf(h)[3] > 0
    ensures Decrement(SphOf(h)) == PathSph(w.cfg.chains[c].id, 254 - i)
    ensures IsPosition(w.cfg, c, i + 1) ==> HeaderAt(w.cfg, c, i + 1, WithSph(h, Decrement(SphOf(h))))
  {
    hide PathSph;
    PathSphDecrement(w.cfg.chains[c].id, 255 - i);
    assert SphOf(h)[3] == SiOf(h);
    var h' := WithSph(h, Decrement(SphOf(h)));
    assert SphOf(h') == Decrement(SphOf(h)) && NextProtoOf(h') == NextProtoOf(h);
  }

  /** Encap for a flow with a stored header whose index is not used up. */
  lemma EncapKnown(st: NodeState, k: Key, g: Frame)
    requires FlowOf(g) == Some(k) && k in st.nshData
    ensures |g| >= ETH_HLEN + IP_HLEN
    ensures SiOf(st.nshData[k]) > 0 ==>
              var h := st.nshData[k];
              var sph := Decrement(SphOf(h));
              Encap(st, g, true) == if sph in st.fwdTable && st.fwdTable[sph].EndOfChain() then SendPlain(st, g)
                                    else Egress(Next, NshWire(g[..6], g[6..12], WithSph(h, sph), g))
  {
    hide TupleOf, NshWire;
  }

  /** The rule of position i is in the table, under the header its encap stage looks up. */
  ghost predicate RuleReady(w: World, c: int, i: int, t: FwdTable)
    requires IsPosition(w.cfg, c, i)
  {
    var ch := w.cfg.chains[c];
    && ch.id < 0x100_0000 && i <= 254 && PathSph(ch.id, 254 - i) in t
    && var e := t[PathSph(ch.id, 254 - i)];
       if Last(ch, i) then e.EndOfChain() else !e.EndOfChain() && e.address == AddressOf(w.ag, ch.nodes[i + 1])
  }

  lemma LookupAt(w: World, base: nat, c: int, i: int)
    requires WellFormed(w, base) && IsPosition(w.cfg, c, i) && !OutAt(w.cfg, c, i)
    ensures RuleReady(w, c, i, FwdTableOf(w.cfg, w.ag, NodeAt(w.cfg, c, i)))
  {
    hide WellFormed, OutAt, PathSph, FwdTableOf, AddressOf;
    AtPosition(w, base, c, i);
    IdsAndRules(w, base);
    FwdTableAt(w.cfg, w.ag, c, i);
  }

  lemma IdsAndRules(w: World, base: nat)
    requires WellFormed(w, base)
    ensures SoundIds(w.cfg) && RulesFit(w) && NoSharing(w.cfg) && Accepted(w.cfg, base, w.plan)
  {
    hide Accepted, NoSharing, SoundIds, Connected, MacsSound, RoutesSound, RulesFit, Harmless;
  }

  /** Forward addresses the frame to the next node of the chain. */
  lemma ForwardOne(w: World, base: nat, s: System, c: int, i: int, dst: Mac, g: Frame, f: Frame)
    requires WellFormed(w, base) && IsPosition(w.cfg, c, i) && IsPosition(w.cfg, c, i + 1) && !OutAt(w.cfg, c, i)
    requires Carries(w, c, i + 1, dst, g, f)
    ensures var e := Forward(NodeStateOf(w, s, NodeAt(w.cfg, c, i)), f);
            e.verdict == Pass && Carries(w, c, i + 1, AddressOf(w.ag, NodeAt(w.cfg, c, i + 1)), g, e.frame)
  {
    hide WellFormed, OutAt, FwdTableOf, TableOf, AddressOf, Forward, HeaderAt, Carries, RuleReady;
    AtPosition(w, base, c, i);
    LookupAt(w, base, c, i);
    ForwardWithRule(w, NodeStateOf(w, s, NodeAt(w.cfg, c, i)), c, i, dst, g, f);
  }

  lemma ForwardWithRule(w: World, st: NodeState, c: int, i: int, dst: Mac, g: Frame, f: Frame)
    requires IsPosition(w.cfg, c, i) && IsPosition(w.cfg, c, i + 1) && RuleReady(w, c, i, st.fwdTable)
    requires EGRESS_MAC in st.srcMac && Carries(w, c, i + 1, dst, g, f)
    ensures Forward(st, f).verdict == Pass
    ensures Carries(w, c, i + 1, AddressOf(w.ag, NodeAt(w.cfg, c, i + 1)), g, Forward(st, f).frame)
  {
    hide PathSph, AddressOf, SphOf, NextProtoOf;
    var src: Mac, h :| HeaderAt(w.cfg, c, i + 1, h) && f == NshWire(dst, src, h, g);
    NshWireFields(dst, src, h, g);
    var dst': Mac, src': Mac := AddressOf(w.ag, NodeAt(w.cfg, c, i + 1)), st.srcMac[EGRESS_MAC];
    assert f[12..] == ETH_P_NSH + h + g;
    assert Forward(st, f).frame == dst' + src' + f[12..];
    assert Forward(st, f).frame == NshWire(dst', src', h, g);
  }

  /* ----- what a step does to stored headers ----- */

  /** The header is that of the position of node n on the chain of flow k. */
  ghost predicate Fits(w: World, k: Key, n: string, h: Nsh) {
    k in w.route && exists i :: PlacedAt(w, w.route[k], i, n) && HeaderAt(w.cfg, w.route[k], i, h)
  }

  ghost predicate PlacedAt(w: World, c: int, i: int, n: string) {
    IsPosition(w.cfg, c, i) && NodeAt(w.cfg, c, i) == n
  }

  /** The headers of flow k stay as they are at their positions. */
  ghost predicate KeepsHeaders(w: World, s: System, s': System, k: Key) {
    k in w.route && forall i :: HasHeader(w, s, k, w.route[k], i) ==> HasHeader(w, s', k, w.route[k], i)
  }

  /** One entry of flow k at node n is new, nothing else has changed. */
  ghost predicate Stores(s: System, s': System, n: string, k: Key, h: Nsh) {
    forall m :: TableOf(s', m) == if m == n then TableOf(s, n)[k := h] else TableOf(s, m)
  }

  ghost predicate SameTables(s: System, s': System) {
    forall m :: TableOf(s', m) == TableOf(s, m)
  }

  lemma SecondPlace(w: World, k: Key, i: int, j: int)
    requires k in w.route && IsPosition(w.cfg, w.route[k], i) && IsPosition(w.cfg, w.route[k], j) && i != j
    requires NodeAt(w.cfg, w.route[k], i) == NodeAt(w.cfg, w.route[k], j)
    ensures ComesBack(w, k)
  {
    var ch := w.cfg.chains[w.route[k]];
    assert ch.nodes[if i < j then i else j] == ch.nodes[if i < j then j else i];
  }

  /** Storing a header of flow k disturbs no other flow, and k itself only where its chain comes back. */
  lemma StoreKeepsHeaders(w: World, s: System, s': System, n: string, k: Key, h: Nsh, k': Key)
    requires Stores(s, s', n, k, h) && k' in w.route
    requires k' == k ==> !ComesBack(w, k) && Fits(w, k, n, h)
    ensures KeepsHeaders(w, s, s', k')
  {
    hide HeaderAt, ComesBack, TableOf;
    forall i | HasHeader(w, s, k', w.route[k'], i) ensures HasHeader(w, s', k', w.route[k'], i) {
      if k' == k && NodeAt(w.cfg, w.route[k], i) == n {
        var j :| PlacedAt(w, w.route[k], j, n) && HeaderAt(w.cfg, w.route[k], j, h);
        if i != j { SecondPlace(w, k, i, j); }
      }
    }
  }

  lemma SameTablesKeepHeaders(w: World, s: System, s': System, k: Key)
    requires SameTables(s, s') && k in w.route
    ensures KeepsHeaders(w, s, s', k) && KeepsHeaders(w, s', s, k)
  {
    hide HeaderAt, TableOf;
  }

  /** The three table invariants. */
  ghost predicate TablesOk(w: World, s: System) {
    StoredRouted(w, s) && ProxiesInPlace(w, s) && EntriesInPosition(w, s)
  }

  lemma SameTablesOk(w: World, s: System, s': System)
    requires TablesOk(w, s) && SameTables(s, s')
    ensures TablesOk(w, s')
  {
    hide HeaderAt, ComesBack, ProxyNeeded, TableOf;
  }

  /** Storing a header of a routed flow at a node with an ingress stage keeps the table invariants. */
  lemma ReceiveTables(w: World, base: nat, s: System, s': System, n: string, k: Key, h: Nsh)
    requires WellFormed(w, base) && TablesOk(w, s) && HasIngress(w, n) && k in w.route
    requires Stores(s, s', n, k, h) && (ComesBack(w, k) || Fits(w, k, n, h))
    ensures TablesOk(w, s')
  {
    hide WellFormed, HeaderAt, ComesBack, HasIngress, TableOf, Fits;
    forall k', i | k' in w.route && ProxyNeeded(w.cfg, w.route[k'], i) ensures HasHeader(w, s', k', w.route[k'], i) {
      NoIngressBehindLink(w, base, w.route[k'], i);
    }
    forall k', i | k' in w.route && IsPosition(w.cfg, w.route[k'], i) && !ComesBack(w, k')
                   && k' in TableOf(s', NodeAt(w.cfg, w.route[k'], i))
      ensures HasHeader(w, s', k', w.route[k'], i)
    {
      if k' == k && NodeAt(w.cfg, w.route[k], i) == n { OnlyPlace(w, k, i, n, h); }
    }
  }

  lemma OnlyPlace(w: World, k: Key, i: int, n: string, h: Nsh)
    requires Fits(w, k, n, h) && !ComesBack(w, k) && PlacedAt(w, w.route[k], i, n)
    ensures HeaderAt(w.cfg, w.route[k], i, h)
  {
    hide HeaderAt, ComesBack;
    var j :| PlacedAt(w, w.route[k], j, n) && HeaderAt(w.cfg, w.route[k], j, h);
    if i != j { SecondPlace(w, k, i, j); }
  }

  lemma NoIngressBehindLink(w: World, base: nat, c: int, i: int)
    requires WellFormed(w, base) && ProxyNeeded(w.cfg, c, i)
    ensures InAt(w.cfg, c, i) && !OutAt(w.cfg, c, i) && !HasIngress(w, NodeAt(w.cfg, c, i))
  {
    hide WellFormed, DirectOut;
    AtPosition(w, base, c, i);
  }

  /** A step that receives a packet of flow k. */
  predicate Receiving(s: System, a: Action, k: Key) {
    a.Receive? && a.id in s.flights && FlowOf(s.flights[a.id].origin) == Some(k)
  }

  /** Every step keeps the table invariants, and the headers of every flow that is not received here or
      whose chain comes back to no node. */
  lemma StepTables(w: World, base: nat, s: System, a: Action, s': System)
    requires WellFormed(w, base) && Invariant(w, s) && Step(w, s, a, s')
    ensures TablesOk(w, s')
    ensures forall k :: k in w.route && (ComesBack(w, k) ==> !Receiving(s, a, k)) ==> KeepsHeaders(w, s, s', k)
  {
    hide WellFormed, ProxiesInPlace, EntriesInPosition, StoredRouted, KeepsHeaders, FlowOf, ComesBack;
    hide ClassifySpec, Served, Forward, Decap;
    if a.Receive? {
      ReceiveStores(w, base, s, a.id, a.node, s');
    } else {
      assert SameTables(s, s');
      SameTablesOk(w, s, s');
      forall k | k in w.route ensures KeepsHeaders(w, s, s', k) { SameTablesKeepHeaders(w, s, s', k); }
    }
  }

  lemma ReceiveStores(w: World, base: nat, s: System, id: nat, n: string, s': System)
    requires WellFormed(w, base) && Invariant(w, s) && Receives(w, s, id, n, s')
    ensures TablesOk(w, s')
    ensures forall k :: k in w.route && (ComesBack(w, k) ==> FlowOf(s.flights[id].origin) != Some(k)) ==>
              KeepsHeaders(w, s, s', k)
  {
    hide WellFormed, ProxiesInPlace, EntriesInPosition, KeepsHeaders, FlowOf, ComesBack, Decap, FlightOk;
    hide StoredRouted, Stores, SameTables, Wraps, Made, HasIngress, Fits;
    var p := s.flights[id];
    var k := FlowOf(p.origin).value;
    var h := ReceiveIntact(w, base, s, p, n);
    if Decap(NodeStateOf(w, s, n), p.at.frame).verdict == Pass {
      UpdateStores(s, s', n, k, h);
      if !ComesBack(w, k) { StraightFits(w, base, s, p, n, h); }
      ReceiveTables(w, base, s, s', n, k, h);
      forall k' | k' in w.route && (ComesBack(w, k') ==> k' != k) ensures KeepsHeaders(w, s, s', k') {
        StoreKeepsHeaders(w, s, s', n, k, h, k');
      }
    } else {
      UpdateNothing(s, s', n);
      SameTablesOk(w, s, s');
      forall k' | k' in w.route ensures KeepsHeaders(w, s, s', k') { SameTablesKeepHeaders(w, s, s', k'); }
    }
  }

  lemma UpdateStores(s: System, s': System, n: string, k: Key, h: Nsh)
    requires s'.tables == s.tables[n := TableOf(s, n)[k := h]]
    ensures Stores(s, s', n, k, h)
  {
  }

  lemma UpdateNothing(s: System, s': System, n: string)
    requires s'.tables == s.tables[n := TableOf(s, n)]
    ensures SameTables(s, s')
  {
  }

  /** What a packet on its chain brings to a node is the header of the node's position. */
  lemma StraightFits(w: World, base: nat, s: System, p: Flight, n: string, h: Nsh)
    requires WellFormed(w, base) && StoredRouted(w, s) && Intact(w, p) && FlightOk(w, s, p) && p.at.OnWire?
    requires HasIngress(w, n) && |p.at.frame| >= ETH_HLEN && p.at.frame[..6] == w.macs(n)[INGRESS_MAC]
    requires Holding(p.at.frame, h)
    ensures Fits(w, FlowOf(p.origin).value, n, h)
  {
    hide WellFormed, StoredRouted, FlowOf, HeaderAt, Decap, HasIngress, AddressOf, Made, Wraps, HasHeader;
    var k, i := FlowOf(p.origin).value, |p.visited|;
    var h' := ReceiveOne(w, base, s, k, w.route[k], i, n, Inner(p), p.at.frame);
    HeldHeader(w, w.route[k], i, AddressOf(w.ag, n), Inner(p), p.at.frame, h);
    assert PlacedAt(w, w.route[k], i, n);
  }

  lemma HeldHeader(w: World, c: int, i: int, dst: Mac, g: Frame, f: Frame, h: Nsh)
    requires IsPosition(w.cfg, c, i) && Carries(w, c, i, dst, g, f) && Holding(f, h)
    ensures HeaderAt(w.cfg, c, i, h)
  {
    hide HeaderAt;
    var src: Mac, h' :| HeaderAt(w.cfg, c, i, h') && f == NshWire(dst, src, h', g);
    NshWireFields(dst, src, h', g);
  }

  /* ----- a packet's own moves, and those of others ----- */

  /** A freshly classified packet is on its way to the first node. */
  lemma ClassifiedOk(w: World, base: nat, s: System, f: Frame, context: seq<byte>, p: Flight)
    requires WellFormed(w, base) && |context| == 16 && FlowOf(f).Some? && FlowOf(f).value in w.route
    requires var out := ClassifySpec(ClsTableOf(w), w.clsMacs, f, true, context);
             out.Wire? && p == Flight(f, [], [], OnWire(out.frame))
    ensures FlightOk(w, s, p)
  {
    hide WellFormed, FlowOf, PathSph, SphOf, NextProtoOf, NshWire, AddressOf, FreshNsh;
    var k := FlowOf(f).value;
    var c := w.route[k];
    RouteStarts(w, base, k);
    AtPosition(w, base, c, 0);
    var e := ClsEntryOf(w, k);
    FreshFields(e.sph, context);
    var h := FreshNsh(e.sph, context);
    assert HeaderAt(w.cfg, c, 0, h);
    assert p.at.frame == NshWire(e.nextHop, w.clsMacs[EGRESS_MAC], h, f);
    assert Carries(w, c, 0, e.nextHop, f, p.at.frame);
  }

  /** Where the function hands the frame on, the packet is again where its visits say. */
  lemma ServedOk(w: World, base: nat, s: System, k: Key, c: int, ch: Chain, p: Flight, peer: string, g: Frame,
                 p': Flight)
    requires WellFormed(w, base) && ProxiesInPlace(w, s) && k in w.route && c == w.route[k]
    requires IsPosition(w.cfg, c, 0) && ch == w.cfg.chains[c] && FlowOf(g) == Some(k) && Inner(p') == g
    requires PlaceOk(w, s, k, c, ch, p) && p.at.AtFunction? && Served(w, s, p, peer, g, p')
    ensures PlaceOk(w, s, k, c, ch, p')
  {
    hide WellFormed, FlowOf, Headed, Carries, HasHeader, ProxiesInPlace, Encap, OutAt, InAt, AddressOf, ExitOk;
    hide PlaceOk, AfterEncap, NodeStateOf;
    var i, n := |p.visited|, p.at.node;
    WaitingPlace(w, s, k, c, ch, p);
    AtPosition(w, base, c, i);
    assert p'.visited == p.visited + [ch.nodes[i]];
    if OutAt(w.cfg, c, i) {
      LinkLeadsOn(w, base, c, i, peer);
      if !OutAt(w.cfg, c, i + 1) { ProxyWaits(w, s, k, c, i + 1); }
      OverLink(w, s, k, c, ch, p', i, g);
    } else {
      EncapOne(w, base, s, k, c, i, g);
      BehindEncap(w, s, k, c, ch, p', i, Encap(NodeStateOf(w, s, n), g, true));
    }
  }

  lemma WaitingPlace(w: World, s: System, k: Key, c: int, ch: Chain, p: Flight)
    requires 0 <= c < |w.cfg.chains| && ch == w.cfg.chains[c] && PlaceOk(w, s, k, c, ch, p) && p.at.AtFunction?
    ensures p.visited <= ch.nodes && IsPosition(w.cfg, c, |p.visited|)
    ensures p.at == AtFunction(NodeAt(w.cfg, c, |p.visited|), Inner(p))
    ensures !OutAt(w.cfg, c, |p.visited|) ==> HasHeader(w, s, k, c, |p.visited|)
  {
    hide HasHeader, OutAt;
  }

  lemma OverLink(w: World, s: System, k: Key, c: int, ch: Chain, p: Flight, i: nat, g: Frame)
    requires IsPosition(w.cfg, c, i) && IsPosition(w.cfg, c, i + 1) && ch == w.cfg.chains[c]
    requires p.visited == ch.nodes[..i] + [ch.nodes[i]] && Inner(p) == g
    requires p.at == AtFunction(ch.nodes[i + 1], g) && (!OutAt(w.cfg, c, i + 1) ==> HasHeader(w, s, k, c, i + 1))
    ensures PlaceOk(w, s, k, c, ch, p)
  {
    hide HasHeader, OutAt;
    assert p.visited == ch.nodes[..i + 1];
  }

  lemma BehindEncap(w: World, s: System, k: Key, c: int, ch: Chain, p: Flight, i: nat, e: Egress)
    requires IsPosition(w.cfg, c, i) && ch == w.cfg.chains[c] && !OutAt(w.cfg, c, i)
    requires p.visited == ch.nodes[..i] + [ch.nodes[i]] && EncapsAt(w, c, i, Inner(p), e)
    requires p.at == AfterEncap(ch.nodes[i], e)
    ensures PlaceOk(w, s, k, c, ch, p)
  {
    hide OutAt, Carries;
    assert p.visited == ch.nodes[..i + 1];
    if !Last(ch, i) {
      var dst: Mac := Inner(p)[..6];
      assert Carries(w, c, i + 1, dst, Inner(p), e.frame);
    } else {
      assert p.visited == ch.nodes;
    }
  }

  /** A direct link leads to the next node of the chain and to no other. */
  lemma LinkLeadsOn(w: World, base: nat, c: int, i: int, peer: string)
    requires WellFormed(w, base) && OutAt(w.cfg, c, i)
    ensures IsPosition(w.cfg, c, i) && IsPosition(w.cfg, c, i + 1) && InAt(w.cfg, c, i + 1)
    ensures NodeAt(w.cfg, c, i) in w.plan.egress
    ensures peer in w.plan.ingress && w.plan.ingress[peer] == LinkEnd(w.plan.egress[NodeAt(w.cfg, c, i)].id, false)
            <==> peer == NodeAt(w.cfg, c, i + 1)
  {
    hide WellFormed, DirectOut, Accepted;
    IdsAndRules(w, base);
    PlanPairsEnds(w.cfg, base, w.plan, c, i, peer);
  }

  /** Behind a direct link, where the egress stages are back, the proxy entry waits. */
  lemma ProxyWaits(w: World, s: System, k: Key, c: int, i: int)
    requires ProxiesInPlace(w, s) && k in w.route && c == w.route[k]
    requires InAt(w.cfg, c, i) && !OutAt(w.cfg, c, i)
    ensures HasHeader(w, s, k, c, i)
  {
    hide HasHeader;
    assert ProxyNeeded(w.cfg, c, i);
  }

  /** A packet on its chain stays on it through every move of its own, whatever other packets there are. */
  lemma OwnMove(w: World, base: nat, s: System, a: Action, s': System, id: nat)
    requires WellFormed(w, base) && Invariant(w, s) && Step(w, s, a, s') && Moves(a, id)
    requires id in s.flights && FlightOk(w, s, s.flights[id])
    ensures id in s'.flights && s'.flights[id].origin == s.flights[id].origin && FlightOk(w, s', s'.flights[id])
  {
    hide WellFormed, Invariant, Receives, Served, Emits, FlightOk;
    match a
    case Receive(x, n) => OwnReceive(w, base, s, id, n, s');
    case Serve(x, peer, g) => OwnServe(w, base, s, id, peer, g, s');
    case Emit(x) => OwnEmit(w, base, s, id, s');
  }

  lemma OwnReceive(w: World, base: nat, s: System, id: nat, n: string, s': System)
    requires WellFormed(w, base) && Invariant(w, s) && Receives(w, s, id, n, s') && FlightOk(w, s, s.flights[id])
    ensures id in s'.flights && s'.flights[id].origin == s.flights[id].origin && FlightOk(w, s', s'.flights[id])
  {
    hide WellFormed, FlowOf, ProxiesInPlace, EntriesInPosition, StraightOnChain, Decap, Carries, HeaderAt, HasIngress;
    hide StoredRouted, Made, Wraps, InAt, OutAt, AddressOf;
    var p := s.flights[id];
    var k, i := FlowOf(p.origin).value, |p.visited|;
    var h := ReceiveOne(w, base, s, k, w.route[k], i, n, Inner(p), p.at.frame);
    assert k in TableOf(s', n) && TableOf(s', n)[k] == h;
    assert HasHeader(w, s', k, w.route[k], i);
  }

  lemma OwnServe(w: World, base: nat, s: System, id: nat, peer: string, g: Frame, s': System)
    requires WellFormed(w, base) && Invariant(w, s) && Serves(w, s, id, peer, g, s') && FlightOk(w, s, s.flights[id])
    ensures id in s'.flights && s'.flights[id].origin == s.flights[id].origin && FlightOk(w, s', s'.flights[id])
  {
    hide WellFormed, FlowOf, PlaceOk, StoredRouted, ProxiesInPlace, EntriesInPosition, StraightOnChain, Intact, Encap;
    var p, p' := s.flights[id], s'.flights[id];
    var k := FlowOf(p.origin).value;
    var c := w.route[k];
    ServeIntact(w, base, s, p, peer, g, p');
    ServedOk(w, base, s, k, c, w.cfg.chains[c], p, peer, g, p');
    FlightSameTables(w, s, s', p');
  }

  lemma OwnEmit(w: World, base: nat, s: System, id: nat, s': System)
    requires WellFormed(w, base) && Emits(w, s, id, s') && FlightOk(w, s, s.flights[id])
    ensures id in s'.flights && s'.flights[id].origin == s.flights[id].origin && FlightOk(w, s', s'.flights[id])
  {
    hide WellFormed, FlowOf, Forward, Carries, HasHeader, OutAt, InAt, AddressOf;
    var p, p' := s.flights[id], s'.flights[id];
    var k := FlowOf(p.origin).value;
    var c, i := w.route[k], |p.visited| - 1;
    var dst: Mac :| Carries(w, c, i + 1, dst, Inner(p), p.at.frame);
    assert IsPosition(w.cfg, c, i) && p.at.node == NodeAt(w.cfg, c, i);
    ForwardOne(w, base, s, c, i, dst, Inner(p), p.at.frame);
    NotBehindLink(w, c, i);
  }

  lemma NotBehindLink(w: World, c: int, i: int)
    requires IsPosition(w.cfg, c, i) && IsPosition(w.cfg, c, i + 1) && !OutAt(w.cfg, c, i)
    ensures !InAt(w.cfg, c, i + 1)
  {
  }

  lemma FlightSameTables(w: World, s: System, s': System, p: Flight)
    requires FlightOk(w, s, p) && SameTables(s, s')
    ensures FlightOk(w, s', p)
  {
    hide FlightOk, KeepsHeaders, SameTables, FlowOf;
    assert FlowOf(p.origin).Some? && FlowOf(p.origin).value in w.route by { FlightRouted(w, s, p); }
    SameTablesKeepHeaders(w, s, s', FlowOf(p.origin).value);
    FlightKept(w, s, s', p);
  }

  lemma FlightRouted(w: World, s: System, p: Flight)
    requires FlightOk(w, s, p)
    ensures FlowOf(p.origin).Some? && FlowOf(p.origin).value in w.route
  {
    hide FlowOf;
  }

  /** A packet that does not move stays on its chain while the headers of its flow are kept. */
  lemma FlightKept(w: World, s: System, s': System, p: Flight)
    requires FlightOk(w, s, p) && KeepsHeaders(w, s, s', FlowOf(p.origin).value)
    ensures FlightOk(w, s', p)
  {
    hide HasHeader, OutAt, InAt, Carries, ExitOk, FlowOf, AddressOf;
  }

  /** A packet on its chain stays on it while others move, if it is undisturbed. */
  lemma Bystander(w: World, base: nat, s: System, a: Action, s': System, id: nat)
    requires WellFormed(w, base) && Invariant(w, s) && Step(w, s, a, s') && !Moves(a, id)
    requires id in s.flights && FlightOk(w, s, s.flights[id]) && Undisturbed(w, s, id)
    ensures id in s'.flights && s'.flights[id].origin == s.flights[id].origin && FlightOk(w, s', s'.flights[id])
  {
    hide WellFormed, Invariant, FlightOk, Step, FlowOf, KeepsHeaders, ComesBack;
    var p := s.flights[id];
    OthersLeaveAlone(w, s, a, s', id);
    FlightRouted(w, s, p);
    if s'.flights[id] == p {
      if Active(p) {
        StepTables(w, base, s, a, s');
        if Receiving(s, a, FlowOf(p.origin).value) { ReceivedIsActive(w, s, a, s'); }
        FlightKept(w, s, s', p);
      } else {
        RestingKept(w, s, s', p);
      }
    } else {
      VanishedOk(w, s, s', p);
    }
  }

  lemma ReceivedIsActive(w: World, s: System, a: Action, s': System)
    requires Step(w, s, a, s') && a.Receive?
    ensures a.id in s.flights && Active(s.flights[a.id])
  {
    hide FlowOf, Decap, HasIngress;
  }

  lemma RestingKept(w: World, s: System, s': System, p: Flight)
    requires FlightOk(w, s, p) && !Active(p)
    ensures FlightOk(w, s', p)
  {
    hide FlowOf, ExitOk;
  }

  lemma VanishedOk(w: World, s: System, s': System, p: Flight)
    requires FlightOk(w, s, p)
    ensures FlightOk(w, s', p.(at := Vanished))
  {
    hide FlowOf, ExitOk, Carries, HasHeader;
  }

  /** An action that does not move the packet leaves its record alone, loses it to the medium, or makes it. */
  lemma OthersLeaveAlone(w: World, s: System, a: Action, s': System, id: nat)
    requires Step(w, s, a, s') && !Moves(a, id)
    ensures id in s.flights ==>
              && id in s'.flights
              && (s'.flights[id] == s.flights[id] || s'.flights[id] == s.flights[id].(at := Vanished))
    ensures id !in s.flights && id in s'.flights ==>
              a.Enter? && a.id == id && s'.flights[id].visited == [] && s'.flights[id].at.OnWire?
  {
    hide FlowOf, Decap, Forward, HasIngress, ClassifySpec, Served;
  }

  /* ----- every reachable state ----- */

  lemma InitialKeeps(w: World, base: nat, s: System)
    requires WellFormed(w, base) && Initial(w, s)
    ensures Invariant(w, s)
  {
    hide WellFormed, ProxyNeeded, ComesBack, FlightOk, ProxyTableOf, HeaderAt;
    forall n | HasIngress(w, n) ensures TableOf(s, n).Keys <= w.route.Keys {
      IngressStartsEmpty(w, base, s, n);
    }
    forall k, i | k in w.route && ProxyNeeded(w.cfg, w.route[k], i) ensures HasHeader(w, s, k, w.route[k], i) {
      InstalledProxy(w, base, s, k, w.route[k], i);
    }
    forall k, i | k in w.route && IsPosition(w.cfg, w.route[k], i) && k in TableOf(s, NodeAt(w.cfg, w.route[k], i))
      ensures HasHeader(w, s, k, w.route[k], i)
    {
      InstalledHeader(w, base, s, k, w.route[k], i);
    }
  }

  lemma InstalledHeader(w: World, base: nat, s: System, k: Key, c: int, i: int)
    requires WellFormed(w, base) && Initial(w, s) && IsPosition(w.cfg, c, i) && k in TableOf(s, NodeAt(w.cfg, c, i))
    ensures HasHeader(w, s, k, c, i)
  {
    hide WellFormed, NoSharing, SoundIds, ProxyTableOf, HeaderAt, TableOf, Accepted;
    var n := NodeAt(w.cfg, c, i);
    IdsAndRules(w, base);
    assert TableOf(s, n) == ProxyTableOf(w.cfg, w.ag, n, w.stacks(n));
    ProxyTableSound(w.cfg, w.ag, n, w.stacks(n), k, c, i);
  }

  lemma InstalledProxy(w: World, base: nat, s: System, k: Key, c: int, i: int)
    requires WellFormed(w, base) && Initial(w, s) && k in w.route && c == w.route[k] && ProxyNeeded(w.cfg, c, i)
    ensures HasHeader(w, s, k, c, i)
  {
    hide WellFormed, NoSharing, SoundIds, ProxyTableOf, HeaderAt, TableOf, NeedsProxy, KeyBytes, Parse, Accepted;
    var n := NodeAt(w.cfg, c, i);
    IdsAndRules(w, base);
    ListedThere(w, base, k, i);
    assert TableOf(s, n) == ProxyTableOf(w.cfg, w.ag, n, w.stacks(n));
    var fl :| fl in w.cfg.chains[c].flows && Parse(fl).Some? && KeyBytes(Parse(fl).value) == k;
    ProxyTableComplete(w.cfg, w.ag, w.stacks(n), c, i, fl);
    InstalledHeader(w, base, s, k, c, i);
  }

  lemma ListedThere(w: World, base: nat, k: Key, i: int)
    requires WellFormed(w, base) && k in w.route && ProxyNeeded(w.cfg, w.route[k], i)
    ensures IsPosition(w.cfg, w.route[k], i) && Listed(w.cfg.chains[w.route[k]], k)
  {
    hide Accepted, NoSharing, SoundIds, Connected, MacsSound, RulesFit, Harmless, NeedsProxy, Listed;
  }

  /** Nodes with an ingress stage get no proxy rules. */
  lemma IngressStartsEmpty(w: World, base: nat, s: System, n: string)
    requires WellFormed(w, base) && Initial(w, s) && HasIngress(w, n)
    ensures TableOf(s, n) == map[]
  {
    hide WellFormed, NoSharing, SoundIds, TableOf, RulesOf, Accepted, OmitsIngress;
    IdsAndRules(w, base);
    assert TableOf(s, n) == ProxyTableOf(w.cfg, w.ag, n, w.stacks(n));
    var rules := RulesOf(w.cfg, w.ag, n).proxy;
    if rules != [] { ProxiedHasNoIngress(w, base, n, rules[0]); }
    assert ProxyEntries(rules, w.stacks(n)) == [];
  }

  lemma ProxiedHasNoIngress(w: World, base: nat, n: string, r: ProxyRule)
    requires Accepted(w.cfg, base, w.plan) && r in RulesOf(w.cfg, w.ag, n).proxy
    ensures OmitsIngress(w.plan, n)
  {
    hide Accepted, RulesOf, OmitsIngress, ProxyFrom;
    ProxyRulesExact(w.cfg, w.ag, n, r);
    var c, i :| ProxyFrom(w.cfg, n, r, c, i);
    ProxyMeansDirectIn(w.cfg, n, r, c, i);
    PlanNames(w.cfg, base, w.plan, n);
  }

  lemma ProxyMeansDirectIn(cfg: CBConfig, n: string, r: ProxyRule, c: int, i: int)
    requires ProxyFrom(cfg, n, r, c, i)
    ensures InAt(cfg, c, i) && NodeAt(cfg, c, i) == n
  {
    hide SphAt, Parse;
  }

  lemma StepKeeps(w: World, base: nat, s: System, a: Action, s': System)
    requires WellFormed(w, base) && Invariant(w, s) && Step(w, s, a, s')
    ensures Invariant(w, s')
  {
    hide WellFormed, StoredRouted, ProxiesInPlace, EntriesInPosition, Intact, Step, FlowOf, FlightOk, ComesBack;
    StepTables(w, base, s, a, s');
    forall x | x in s'.flights ensures Intact(w, s'.flights[x]) { StepIntact(w, base, s, a, s', x); }
    forall x | x in s'.flights && Straight(w, s'.flights[x]) ensures FlightOk(w, s', s'.flights[x]) {
      StraightKeeps(w, base, s, a, s', x);
    }
  }

  lemma StraightKeeps(w: World, base: nat, s: System, a: Action, s': System, x: nat)
    requires WellFormed(w, base) && Invariant(w, s) && Step(w, s, a, s')
    requires x in s'.flights && Straight(w, s'.flights[x])
    ensures FlightOk(w, s', s'.flights[x])
  {
    hide WellFormed, StoredRouted, ProxiesInPlace, EntriesInPosition, Intact, Step, FlowOf, FlightOk, ComesBack;
    if Moves(a, x) {
      MovesMine(w, s, a, s', x);
      OwnMove(w, base, s, a, s', x);
    } else {
      OthersLeaveAlone(w, s, a, s', x);
      if x in s.flights {
        Bystander(w, base, s, a, s', x);
      } else {
        EnteredOk(w, base, s, a, s');
      }
    }
  }

  lemma MovesMine(w: World, s: System, a: Action, s': System, id: nat)
    requires Step(w, s, a, s') && Moves(a, id)
    ensures id in s.flights && id in s'.flights && s'.flights[id].origin == s.flights[id].origin
    ensures s'.flights == s.flights[id := s'.flights[id]]
  {
    hide FlowOf, Decap, Forward, Encap, HasIngress, OmitsEgress;
  }

  lemma EnteredOk(w: World, base: nat, s: System, a: Action, s': System)
    requires WellFormed(w, base) && Step(w, s, a, s') && a.Enter?
    ensures a.id in s'.flights && FlightOk(w, s', s'.flights[a.id])
  {
    hide WellFormed, FlightOk, FlowOf, ClassifySpec;
    ClassifiedOk(w, base, s', a.frame, a.context, s'.flights[a.id]);
  }

  /** The invariant holds in every state of every run. */
  lemma {:induction false} RunKeeps(w: World, base: nat, states: seq<System>, actions: seq<Action>, j: nat)
    requires WellFormed(w, base) && IsRun(w, states, actions) && j < |states|
    ensures Invariant(w, states[j])
  {
    hide WellFormed, Invariant, Step, Initial;
    if j == 0 {
      InitialKeeps(w, base, states[0]);
    } else {
      RunKeeps(w, base, states, actions, j - 1);
      StepKeeps(w, base, states[j - 1], actions[j - 1], states[j]);
    }
  }

  /** In every run, however many packets of its flow there are, a packet that is undisturbed stays on its chain. */
  lemma {:induction false} FlightKeeps(w: World, base: nat, states: seq<System>, actions: seq<Action>, j: nat, id: nat)
    requires WellFormed(w, base) && IsRun(w, states, actions) && j < |states| && id in states[j].flights
    requires UndisturbedUpTo(w, states, j, id)
    ensures FlightOk(w, states[j], states[j].flights[id])
  {
    hide WellFormed, Invariant, Step, Initial, FlightOk, Undisturbed;
    if j == 0 {
      StartsEmpty(w, states[0]);
    } else {
      var s, a, s' := states[j - 1], actions[j - 1], states[j];
      RunKeeps(w, base, states, actions, j - 1);
      if Moves(a, id) {
        MovesMine(w, s, a, s', id);
        FlightKeeps(w, base, states, actions, j - 1, id);
        OwnMove(w, base, s, a, s', id);
      } else {
        OthersLeaveAlone(w, s, a, s', id);
        if id in s.flights {
          FlightKeeps(w, base, states, actions, j - 1, id);
          Bystander(w, base, s, a, s', id);
        } else {
          EnteredOk(w, base, s, a, s');
        }
      }
    }
  }

  lemma StartsEmpty(w: World, s: System)
    requires Initial(w, s)
    ensures s.flights == map[]
  {
  }
}
