/** The agent of a node: it installs the rules it is sent, byte-swapped, into the maps of the stages. */
module Agent {
  import opened Bytes
  import opened Frames
  import opened Stages
  import opened Pipeline
  import opened Config
  import opened Manager

  /* ----- map contents ----- */

  /** The key under which a proxy rule is stored: every field in network order. */
  function KeyBytes(t: FiveTuple): Key {
    BE32(t.ipsrc) + BE32(t.ipdst) + BE16(t.sport) + BE16(t.dport) + [t.proto]
  }

  /** The key of a forwarding rule in network order. */
  function SphBytes(v: u32): Sph { BE32(v) }

  function EntryOf(r: FwdRule): (Sph, FwdEntry) {
    (SphBytes(r.key), FwdEntry(r.flags, r.address))
  }

  /** The agent stores an 8-byte header; the map copies 24 bytes, so the rest is whatever lay behind it. */
  function ProxyEntryOf(r: ProxyRule, stack: seq<byte>): (Key, Nsh)
    requires |stack| == 16
  {
    (KeyBytes(r.key), FreshNsh(BE32(r.val), stack))
  }

  function FwdEntries(rules: seq<FwdRule>): seq<(Sph, FwdEntry)> {
    seq(|rules|, i requires 0 <= i < |rules| => EntryOf(rules[i]))
  }

  /** The sixteen bytes each call of `add_proxy_rule` happens to store behind the header. */
  type Stacks = f: nat -> seq<byte> | forall i :: |f(i)| == 16 witness (_ => seq(16, _ => 0))

  function ProxyEntries(rules: seq<ProxyRule>, stacks: Stacks): seq<(Key, Nsh)> {
    seq(|rules|, i requires 0 <= i < |rules| => ProxyEntryOf(rules[i], stacks(i)))
  }

  /** Updates one after the other; one that finds the map full is ignored. */
  function Install<K, V>(t: map<K, V>, es: seq<(K, V)>): map<K, V> {
    if es == [] then t
    else MapUpdate(Install(t, es[..|es| - 1]), es[|es| - 1].0, es[|es| - 1].1)
  }

  /* ----- the programs ----- */

  /** What `ManagerConnect` reports: the address of the ingress interface, or zeros. */
  function HelloAddress(macs: map<nat, Mac>): Mac {
    if INGRESS_MAC in macs then macs[INGRESS_MAC] else [0, 0, 0, 0, 0, 0]
  }

  /** `NewCBAgent` and `ManagerConnect`: an interface that was not omitted gets its stages and its slot in
      `src_mac`; the address reported to the manager is the one the ingress stage will compare with. */
  method StartAgent(ingress: Option<Mac>, egress: Option<Mac>) returns (node: Node, hello: Mac)
    ensures fresh(node) && node.nshData == map[] && node.fwdTable == map[]
    ensures INGRESS_MAC in node.srcMac <==> ingress.Some?
    ensures EGRESS_MAC in node.srcMac <==> egress.Some?
    ensures ingress.Some? ==> node.srcMac[INGRESS_MAC] == ingress.value
    ensures egress.Some? ==> node.srcMac[EGRESS_MAC] == egress.value
    ensures hello == HelloAddress(node.srcMac) && (ingress.None? ==> hello == [0, 0, 0, 0, 0, 0])
  {
    var macs: map<nat, Mac> := map[];
    if ingress.Some? { macs := macs[INGRESS_MAC := ingress.value]; }
    if egress.Some? { macs := macs[EGRESS_MAC := egress.value]; }
    node := new Node(macs);
    hello := if ingress.Some? then ingress.value else [0, 0, 0, 0, 0, 0];
  }

  method AddFwdRule(node: Node, key: u32, val: FwdEntry)
    modifies node`fwdTable
    ensures node.fwdTable == MapUpdate(old(node.fwdTable), SphBytes(key), val)
  {
    var k: Sph := LE32(Swap32(key));
    Swap32Layout(key);
    node.fwdTable := MapUpdate(node.fwdTable, k, val);
  }

  method AddProxyRule(node: Node, t: FiveTuple, sph: u32, stack: seq<byte>)
    requires |stack| == 16
    modifies node`nshData
    ensures node.nshData == MapUpdate(old(node.nshData), KeyBytes(t), FreshNsh(BE32(sph), stack))
  {
    var key: Key := LE32(Swap32(t.ipsrc)) + LE32(Swap32(t.ipdst))
                  + LE16(Swap16(t.sport)) + LE16(Swap16(t.dport)) + [t.proto];
    Swap32Layout(t.ipsrc);
    Swap32Layout(t.ipdst);
    Swap16Layout(t.sport);
    Swap16Layout(t.dport);
    var basicInfo: u16 := 0x0FC0 + 0x0002;
    Swap16Layout(basicInfo);
    Swap32Layout(sph);
    var val: Nsh := LE16(Swap16(basicInfo)) + [0x02] + [NSH_NEXT_PROTO_ETHER] + LE32(Swap32(sph)) + stack;
    assert val == FreshNsh(BE32(sph), stack);
    node.nshData := MapUpdate(node.nshData, key, val);
  }

  lemma InstallStep<K, V>(t: map<K, V>, es: seq<(K, V)>, i: nat)
    requires i < |es|
    ensures Install(t, es[..i + 1]) == MapUpdate(Install(t, es[..i]), es[i].0, es[i].1)
  {
    assert es[..i + 1][..i] == es[..i];
  }

  /** The first loop of `handleInstall`. */
  method InstallFwdRules(node: Node, rules: seq<FwdRule>)
    modifies node`fwdTable
    ensures node.fwdTable == Install(old(node.fwdTable), FwdEntries(rules))
  {
    hide MapUpdate;
    var es := FwdEntries(rules);
    for i := 0 to |rules|
      invariant node.fwdTable == Install(old(node.fwdTable), es[..i])
    {
      AddFwdRule(node, rules[i].key, FwdEntry(rules[i].flags, rules[i].address));
      assert es[i] == EntryOf(rules[i]);
      InstallStep(old(node.fwdTable), es, i);
    }
    assert es[..|es|] == es;
  }

  method HandleInstall(node: Node, msg: RulesConfig, stacks: Stacks)
    modifies node`fwdTable, node`nshData
    ensures node.fwdTable == Install(old(node.fwdTable), FwdEntries(msg.fwd))
    ensures node.nshData == Install(old(node.nshData), ProxyEntries(msg.proxy, stacks))
  {
    InstallFwdRules(node, msg.fwd);
    InstallProxyRules(node, msg.proxy, stacks);
  }

  /** The second loop of `handleInstall`. */
  method InstallProxyRules(node: Node, rules: seq<ProxyRule>, stacks: Stacks)
    modifies node`nshData
    ensures node.nshData == Install(old(node.nshData), ProxyEntries(rules, stacks))
  {
    hide MapUpdate, BE32, FreshNsh, KeyBytes;
    var es := ProxyEntries(rules, stacks);
    for i := 0 to |rules|
      invariant node.nshData == Install(old(node.nshData), es[..i])
    {
      AddProxyRule(node, rules[i].key, rules[i].val, stacks(i));
      assert es[i] == ProxyEntryOf(rules[i], stacks(i));
      InstallStep(old(node.nshData), es, i);
    }
    assert es[..|es|] == es;
  }

  /* ----- what a table holds after an installation ----- */

  ghost function KeysOf<K, V>(es: seq<(K, V)>): set<K> {
    set e | e in es :: e.0
  }

  /** The entries of one key all have the same value. */
  ghost predicate Functional<K, V>(es: seq<(K, V)>) {
    forall e, e' :: e in es && e' in es && e.0 == e'.0 ==> e == e'
  }

  /** Every key gets an entry, and every entry is a new one or an untouched old one. */
  ghost predicate Holds<K, V>(t: map<K, V>, es: seq<(K, V)>, m: map<K, V>) {
    && m.Keys == t.Keys + KeysOf(es)
    && (forall k :: k in m ==> (k, m[k]) in es || (k in t && k !in KeysOf(es) && m[k] == t[k]))
  }

  lemma HoldsNothing<K, V>(t: map<K, V>)
    ensures Holds(t, [], t)
  {
  }

  lemma HoldsKeys<K, V>(t: map<K, V>, es: seq<(K, V)>, m: map<K, V>)
    requires Holds(t, es, m)
    ensures m.Keys == t.Keys + KeysOf(es)
  {
  }

  lemma HoldsStep<K, V>(t: map<K, V>, rest: seq<(K, V)>, e: (K, V), m: map<K, V>)
    requires Holds(t, rest, m)
    requires e.0 in m || |m| < MAX_ENTRIES
    ensures Holds(t, rest + [e], MapUpdate(m, e.0, e.1))
  {
    var m' := MapUpdate(m, e.0, e.1);
    assert KeysOf(rest + [e]) == KeysOf(rest) + {e.0};
    forall k | k in m' ensures (k, m'[k]) in rest + [e] || (k in t && k !in KeysOf(rest + [e]) && m'[k] == t[k]) {
      if k == e.0 { assert (rest + [e])[|rest|] == (k, m'[k]); }
    }
  }

  lemma {:induction false} InstallEntries<K, V>(t: map<K, V>, es: seq<(K, V)>)
    requires |t.Keys + KeysOf(es)| <= MAX_ENTRIES
    ensures Holds(t, es, Install(t, es))
  {
    hide Holds, MapUpdate;
    if es == [] {
      HoldsNothing(t);
    } else {
      var rest, e := es[..|es| - 1], es[|es| - 1];
      assert es == rest + [e];
      var all := t.Keys + KeysOf(es);
      assert t.Keys + KeysOf(rest) <= all && e.0 in all;
      SubsetSize(t.Keys + KeysOf(rest), all);
      InstallEntries(t, rest);
      var m := Install(t, rest);
      HoldsKeys(t, rest, m);
      if e.0 !in m {
        SubsetSize(m.Keys + {e.0}, all);
      }
      HoldsStep(t, rest, e, m);
    }
  }

  /** Of several entries for one key the last one stays. */
  lemma {:induction false} LastEntryStays<K, V>(t: map<K, V>, es: seq<(K, V)>, i: nat)
    requires |t.Keys + KeysOf(es)| <= 2048 && i < |es|
    requires forall j :: i < j < |es| ==> es[j].0 != es[i].0
    ensures es[i].0 in Install(t, es) && Install(t, es)[es[i].0] == es[i].1
  {
    hide Holds, MapUpdate, KeysOf;
    var rest, e := es[..|es| - 1], es[|es| - 1];
    assert es == rest + [e];
    FewerKeys(t, rest, e);
    InstallEntries(t, rest);
    var m := Install(t, rest);
    HoldsKeys(t, rest, m);
    RoomForLast(t, rest, e, m);
    UpdatedEntry(m, e);
    if i < |rest| {
      assert rest[i] == es[i];
      LastEntryStays(t, rest, i);
    }
  }

  lemma FewerKeys<K, V>(t: map<K, V>, rest: seq<(K, V)>, e: (K, V))
    requires |t.Keys + KeysOf(rest + [e])| <= MAX_ENTRIES
    ensures |t.Keys + KeysOf(rest)| <= MAX_ENTRIES
  {
    hide KeysOf;
    KeysOfMore(rest, e);
    SubsetSize(t.Keys + KeysOf(rest), t.Keys + KeysOf(rest + [e]));
  }

  lemma KeysOfMore<K, V>(rest: seq<(K, V)>, e: (K, V))
    ensures KeysOf(rest + [e]) == KeysOf(rest) + {e.0}
  {
  }

  lemma RoomForLast<K, V>(t: map<K, V>, rest: seq<(K, V)>, e: (K, V), m: map<K, V>)
    requires |t.Keys + KeysOf(rest + [e])| <= MAX_ENTRIES && m.Keys == t.Keys + KeysOf(rest)
    ensures e.0 in m || |m| < MAX_ENTRIES
  {
    hide KeysOf;
    KeysOfMore(rest, e);
    assert t.Keys + KeysOf(rest + [e]) == m.Keys + {e.0};
    assert |m| == |m.Keys|;
  }

  lemma UpdatedEntry<K, V>(m: map<K, V>, e: (K, V))
    requires e.0 in m || |m| < MAX_ENTRIES
    ensures MapUpdate(m, e.0, e.1) == m[e.0 := e.1]
  {
  }

  lemma {:induction false} KeysFewerThanEntries<K, V>(es: seq<(K, V)>)
    ensures |KeysOf(es)| <= |es|
  {
    if es != [] {
      var rest, e := es[..|es| - 1], es[|es| - 1];
      KeysFewerThanEntries(rest);
      assert es == rest + [e];
      assert KeysOf(es) == KeysOf(rest) + {e.0};
    }
  }

  /** A list no longer than the map is large always fits into an empty map. */
  lemma InstallFresh<K, V>(es: seq<(K, V)>)
    requires |es| <= MAX_ENTRIES
    ensures var t: map<K, V> := map[]; |t.Keys + KeysOf(es)| <= MAX_ENTRIES && Holds(t, es, Install(t, es))
  {
    var t: map<K, V> := map[];
    KeysFewerThanEntries(es);
    assert t.Keys + KeysOf(es) == KeysOf(es);
    InstallEntries(t, es);
  }

  lemma {:induction false} SubsetSize<T>(a: set<T>, b: set<T>)
    requires a <= b
    ensures |a| <= |b|
  {
    if a != {} {
      var x :| x in a;
      SubsetSize(a - {x}, b - {x});
    }
  }

  /** Order and repetition do not matter: the same rules, listed in any way, give the same table. */
  lemma InstallOrderIndependent<K, V>(t: map<K, V>, es: seq<(K, V)>, es': seq<(K, V)>)
    requires Functional(es) && (forall e :: e in es <==> e in es')
    requires |t.Keys + KeysOf(es)| <= MAX_ENTRIES
    ensures Install(t, es) == Install(t, es')
  {
    assert KeysOf(es) == KeysOf(es');
    InstallEntries(t, es);
    InstallEntries(t, es');
    HoldsUnique(t, es, es', Install(t, es), Install(t, es'));
  }

  lemma HoldsUnique<K, V>(t: map<K, V>, es: seq<(K, V)>, es': seq<(K, V)>, m: map<K, V>, m': map<K, V>)
    requires Functional(es) && (forall e :: e in es <==> e in es') && KeysOf(es) == KeysOf(es')
    requires Holds(t, es, m) && Holds(t, es', m')
    ensures m == m'
  {
    forall k | k in m ensures m[k] == m'[k] {
      if k in KeysOf(es) {
        assert (k, m[k]) in es && (k, m'[k]) in es;
      } else {
        assert (k, m[k]).0 !in KeysOf(es) && (k, m'[k]).0 !in KeysOf(es);
      }
    }
  }

  /* ----- flow keys ----- */

  /** An option-free IPv4 packet of the flow, not tunnelled, long enough for its transport header. */
  ghost predicate PacketOf(p: seq<byte>, t: FlowText) {
    && t.ipsrc.Some? && t.ipdst.Some?
    && |p| >= IP_HLEN && p[0] == 0x45 && p[9] == t.proto
    && p[12..16] == t.ipsrc.value[|t.ipsrc.value| - 4..]
    && p[16..20] == t.ipdst.value[|t.ipdst.value| - 4..]
    && (t.proto == IPPROTO_UDP || t.proto == IPPROTO_TCP ==>
          |p| >= IP_HLEN + L4Len(t.proto).value && p[20..22] == BE16(t.sport) && p[22..24] == BE16(t.dport))
  }

  /** The key the agent installs for a TCP, UDP or ICMP flow is the key the stages read from its
      packets, except that an ICMP flow has to be listed with both ports zero. */
  lemma FlowKeyAgreement(p: seq<byte>, t: FlowText)
    requires PacketOf(p, t) && t.proto in [IPPROTO_TCP, IPPROTO_UDP, IPPROTO_ICMP]
    ensures Parse(t).Some?
    ensures TupleOf(p) == Some(KeyBytes(Parse(t).value)) <==> (t.proto == IPPROTO_ICMP ==> t.sport == 0 && t.dport == 0)
  {
    hide BE16, BE32, TupleOf, KeyBytes, Parse, Ip2Int, Int2Ip;
    var ports, read := BE16(t.sport) + BE16(t.dport), Ports(p, t.proto);
    ParsedKey(t);
    TupleOfPlain(p);
    assert p[12..20] == p[12..16] + p[16..20];
    SameMiddle(p[12..20], read, ports, [t.proto]);
    if t.proto == IPPROTO_ICMP {
      ZeroPorts(t.sport, t.dport);
    } else {
      assert p[20..24] == p[20..22] + p[22..24];
    }
  }

  lemma TupleOfPlain(p: seq<byte>)
    requires |p| >= IP_HLEN && p[9] != IPPROTO_IPIP
    requires L4Len(p[9]).Some? && |p| >= IP_HLEN + L4Len(p[9]).value
    ensures TupleOf(p) == Some(p[12..20] + Ports(p, p[9]) + [p[9]])
  {
  }

  /** The installed key has the last four bytes of both addresses as they were parsed. */
  lemma ParsedKey(t: FlowText)
    requires t.ipsrc.Some? && t.ipdst.Some?
    ensures Parse(t).Some?
    ensures var src, dst := t.ipsrc.value, t.ipdst.value;
            KeyBytes(Parse(t).value)
              == src[|src| - 4..] + dst[|dst| - 4..] + (BE16(t.sport) + BE16(t.dport)) + [t.proto]
  {
    hide BE16, BE32, FromBE32, Ip2Int;
    IpRoundTrip(0, t.ipsrc.value);
    IpRoundTrip(0, t.ipdst.value);
  }

  lemma ZeroPorts(s: u16, d: u16)
    ensures BE16(s) + BE16(d) == [0, 0, 0, 0] <==> s == 0 && d == 0
  {
    var b := BE16(s) + BE16(d);
    assert b[..2] == BE16(s) && b[2..] == BE16(d);
    FromBE16RoundTrip(s);
    FromBE16RoundTrip(d);
    assert b == [b[0], b[1], b[2], b[3]];
  }

  lemma SameMiddle(x: seq<byte>, y: seq<byte>, y': seq<byte>, z: seq<byte>)
    requires |y| == |y'|
    ensures x + y + z == x + y' + z <==> y == y'
  {
    assert (x + y + z)[|x|..|x| + |y|] == y;
    assert (x + y' + z)[|x|..|x| + |y|] == y';
  }

  /** Wrapping a packet once in IP-in-IP leaves its key alone exactly for ICMP, or where its first four
      bytes happen to equal its ports: the ports are read at the place they had before the wrapping. */
  lemma IpipKey(outer: seq<byte>, p: seq<byte>)
    requires |outer| == IP_HLEN && outer[9] == IPPROTO_IPIP && TupleOf(p).Some?
    ensures TupleOf(outer + p) == TupleOf(p) <==>
            p[9] != IPPROTO_IPIP && (p[9] == IPPROTO_ICMP || p[..4] == p[20..24])
  {
    var q := outer + p;
    assert q[20..] == p && FlowHeader(q) == p;
    assert q[20..24] == p[..4];
    if p[9] != IPPROTO_IPIP {
      var k, k' := TupleOf(p).value, TupleOf(q).value;
      assert k[8..12] == Ports(p, p[9]) && k'[8..12] == Ports(q, p[9]);
    }
  }

  /* ----- every reachable table ----- */

  datatype Event = Receive(wire: Frame) | Update(msg: RulesConfig, stacks: Stacks)

  function After(st: NodeState, e: Event): NodeState {
    match e
    case Receive(w) => st.(nshData := Decap(st, w).nshData)
    case Update(msg, stacks) =>
      st.(fwdTable := Install(st.fwdTable, FwdEntries(msg.fwd)),
          nshData := Install(st.nshData, ProxyEntries(msg.proxy, stacks)))
  }

  function Run(st: NodeState, es: seq<Event>): NodeState {
    if es == [] then st else After(Run(st, es[..|es| - 1]), es[|es| - 1])
  }

  lemma {:induction false} InstallKeepsStored(t: NshTable, es: seq<(Key, Nsh)>)
    requires Stored(t) && forall e :: e in es ==> NextProtoOf(e.1) == NSH_NEXT_PROTO_ETHER
    ensures Stored(Install(t, es))
  {
    if es != [] { InstallKeepsStored(t, es[..|es| - 1]); }
  }

  /** Whatever arrives and whatever is installed, in any order: all stored headers announce Ethernet. */
  lemma {:induction false} StoredAlways(st: NodeState, es: seq<Event>)
    requires Stored(st.nshData)
    ensures Stored(Run(st, es).nshData)
  {
    if es != [] {
      StoredAlways(st, es[..|es| - 1]);
      var s := Run(st, es[..|es| - 1]);
      match es[|es| - 1]
      case Receive(w) => DecapKeepsStored(s, w);
      case Update(msg, stacks) => InstallKeepsStored(s.nshData, ProxyEntries(msg.proxy, stacks));
    }
  }

  /** So what a node sends on, after any history of its own, the next node accepts and unpacks to the same frame. */
  lemma NextDecapAccepts(macs: map<nat, Mac>, es: seq<Event>, f: Frame, w: Frame, b: NodeState)
    requires EgressSpec(Run(NodeState(map[], map[], macs), es), f, true) == Wire(w)
    requires INGRESS_MAC in b.srcMac && Unicast(b.srcMac[INGRESS_MAC]) && w[..6] == b.srcMac[INGRESS_MAC]
    ensures Decap(b, w).verdict == Pass && Decap(b, w).frame == f
  {
    hide Decap, Run;
    var st := NodeState(map[], map[], macs);
    StoredAlways(st, es);
    HopRoundTrip(Run(st, es), b, f, w, FlowOf(f).value);
  }
}
