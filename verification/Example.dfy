/** Two deployments that meet every hypothesis of the network theorems: the repository's configuration for
    proxy rules, with direct links and encapsulated hops, and its smallest star, which comes back to a node. */
module Example {
  import opened Bytes
  import opened Frames
  import opened Stages
  import opened Pipeline
  import opened Config
  import opened Manager
  import opened Rules
  import opened Agent
  import opened Deployer
  import opened Agreement
  import opened Tables
  import opened Network
  import opened Safety
  import opened EndToEnd
  import opened Returning

  /* ----- what both share ----- */

  function Number(n: string): byte {
    if n == "sf1" then 1 else if n == "sf2" then 2 else if n == "sf3" then 3
    else if n == "sf4" then 4 else if n == "sf5" then 5 else if n == "sf6" then 6 else 0
  }

  /** Addresses of a node with the given stages: one prefix for ingress, another for egress. */
  function MacsOf(n: string, ingress: bool, egress: bool): map<nat, Mac> {
    var mac0: Mac, mac1: Mac := [2, 0, 0, 0, 0, Number(n)], [2, 0, 0, 0, 1, Number(n)];
    (if ingress then map[INGRESS_MAC := mac0] else map[]) + (if egress then map[EGRESS_MAC := mac1] else map[])
  }

  /** Nodes whose addresses follow the scheme have unicast ingress addresses, each its own. */
  ghost predicate Scheme(w: World) {
    forall n :: HasIngress(w, n) ==> Number(n) != 0 && w.macs(n)[INGRESS_MAC] == IngressMac(n)
  }

  function IngressMac(n: string): Mac { [2, 0, 0, 0, 0, Number(n)] }

  lemma SchemeIsSound(w: World)
    requires Scheme(w)
    requires forall c, i :: IsPosition(w.cfg, c, i) ==> Equipped(w, NodeAt(w.cfg, c, i))
    ensures MacsSound(w)
  {
    hide Number, OmitsIngress, OmitsEgress;
    forall n, m | HasIngress(w, n) && HasIngress(w, m) && w.macs(n)[INGRESS_MAC] == w.macs(m)[INGRESS_MAC]
      ensures n == m
    {
      assert IngressMac(n)[5] == Number(n) && IngressMac(m)[5] == Number(m);
      NumberNames(n, m);
    }
  }

  /** The node has an address for each direction that is not omitted. */
  ghost predicate Equipped(w: World, n: string) {
    && (!OmitsIngress(w.plan, n) ==> INGRESS_MAC in w.macs(n))
    && (!OmitsEgress(w.plan, n) ==> EGRESS_MAC in w.macs(n))
  }

  lemma NumberNames(n: string, m: string)
    requires Number(n) == Number(m) != 0
    ensures n == m
  {
  }

  function ClassifierMacs(): map<nat, Mac> { map[EGRESS_MAC := [2, 0, 0, 0, 1, 9]] }

  function ZeroStack(n: string): Stacks { _ => seq(16, _ => 0) }

  function Unchanged(n: string): Behaviour { (f: Frame, g: Frame) => g == f }

  lemma UnchangedIsFine(n: string)
    ensures Harmless(Unchanged(n)) && Answers(Unchanged(n)) && Transparent(Unchanged(n))
  {
    forall f ensures HasOutput(Unchanged(n), f) { assert Unchanged(n)(f, f); }
  }

  function FlowKey(fl: FlowText): Key {
    if Parse(fl).Some? then KeyBytes(Parse(fl).value) else seq(13, _ => 0)
  }

  lemma {:induction false} PickNoMore<R>(n: string, s: seq<(string, R)>)
    ensures |Pick(n, s)| <= |s|
  {
    if s != [] { PickNoMore(n, s[..|s| - 1]); }
  }

  lemma {:induction false} FwdFew(cfg: CBConfig, ag: Agents, ch: Chain, n: nat)
    requires n <= |ch.nodes|
    ensures |FwdUpTo(cfg, ag, ch, n)| <= n
  {
    hide SphAt, DirectOut;
    if n > 0 { FwdFew(cfg, ag, ch, n - 1); }
  }

  lemma {:induction false} ProxyFew(cfg: CBConfig, ch: Chain, n: nat)
    requires n <= |ch.nodes|
    ensures |ProxyUpTo(cfg, ch, n)| <= n * |ch.flows|
  {
    hide SphAt, NeedsProxy, Parse;
    if n > 0 {
      ProxyFew(cfg, ch, n - 1);
      ProxyAtFew(cfg, ch, n - 1, ch.flows);
      assert n * |ch.flows| == (n - 1) * |ch.flows| + |ch.flows|;
    }
  }

  lemma {:induction false} ProxyAtFew(cfg: CBConfig, ch: Chain, i: nat, flows: seq<FlowText>)
    requires i < |ch.nodes|
    ensures |ProxyAt(cfg, ch, i, flows)| <= |flows|
  {
    hide SphAt, NeedsProxy, Parse;
    if flows != [] { ProxyAtFew(cfg, ch, i, flows[..|flows| - 1]); }
  }

  lemma {:induction false} AllFew(cfg: CBConfig, ag: Agents, m: nat)
    requires m <= |cfg.chains| && forall c :: 0 <= c < m ==> Small(cfg.chains[c])
    ensures |AllFwd(cfg, ag, m)| <= 20 * m && |AllProxy(cfg, m)| <= 20 * m
  {
    hide FwdUpTo, ProxyUpTo;
    if m > 0 {
      var ch := cfg.chains[m - 1];
      AllFew(cfg, ag, m - 1);
      assert Small(ch);
      FwdFew(cfg, ag, ch, |ch.nodes|);
      ProxyFew(cfg, ch, |ch.nodes|);
    }
  }

  predicate Small(ch: Chain) { |ch.nodes| <= 20 && |ch.nodes| * |ch.flows| <= 20 }

  lemma RulesFew(cfg: CBConfig, ag: Agents, n: string)
    requires |cfg.chains| <= 2 && forall c :: 0 <= c < |cfg.chains| ==> Small(cfg.chains[c])
    ensures |RulesOf(cfg, ag, n).fwd| <= MAX_ENTRIES && |RulesOf(cfg, ag, n).proxy| <= MAX_ENTRIES
  {
    hide AllFwd, AllProxy, Pick, Small;
    AllFew(cfg, ag, |cfg.chains|);
    PickNoMore(n, AllFwd(cfg, ag, |cfg.chains|));
    PickNoMore(n, AllProxy(cfg, |cfg.chains|));
  }

  /* ----- the configuration for proxy rules ----- */

  const PING: FlowText := FlowText(Some([172, 17, 0, 2]), Some([172, 17, 0, 3]), 0, 0, 1)
  const QUERY: FlowText := FlowText(Some([172, 17, 0, 2]), Some([172, 17, 0, 3]), 1000, 2000, 17)
  const WEB: FlowText := FlowText(Some([10, 100, 0, 1]), Some([10, 100, 0, 2]), 50000, 60000, 6)
  const FEED: FlowText := FlowText(Some([10, 10, 0, 1]), Some([10, 10, 0, 2]), 2571, 2828, 17)

  const CHAIN_A: Chain := Chain(100, ["sf1", "sf2", "sf3", "sf4"], [PING, QUERY, WEB, WEB, WEB])
  const CHAIN_B: Chain := Chain(300, ["sf5", "sf6"], [FEED])
  const NODES: seq<Instance> := [Instance("sf1", false), Instance("sf2", false), Instance("sf3", true),
                                 Instance("sf4", false), Instance("sf5", false), Instance("sf6", false)]
  const CFG: CBConfig := CBConfig([CHAIN_A, CHAIN_B], NODES)
  const PLAN: Plan := Plan(map["sf2" := LinkEnd(0, false), "sf6" := LinkEnd(1, false)],
                           map["sf1" := LinkEnd(0, true), "sf5" := LinkEnd(1, true)])

  function Macs(n: string): map<nat, Mac> {
    MacsOf(n, Number(n) in {1, 3, 4, 5}, Number(n) in {2, 3, 4, 6})
  }

  function Reported(): Agents {
    map n | n in {"sf1", "sf2", "sf3", "sf4", "sf5", "sf6"} :: HelloAddress(Macs(n))
  }

  function Routes(): map<Key, nat> { map[FlowKey(PING) := 0, FlowKey(FEED) := 1] }

  function TheWorld(): World {
    World(CFG, Reported(), PLAN, Macs, Routes(), ClassifierMacs(), Unchanged, ZeroStack)
  }

  lemma TagsDiffer(a: int, b: int)
    requires 0 <= a < b < 6
    ensures NODES[a].tag != NODES[b].tag
  {
    assert Number(NODES[a].tag) == a + 1 && Number(NODES[b].tag) == b + 1;
  }

  /** The node at each place is the next one of the list; only the third is remote. */
  lemma Places(c: int, i: int)
    requires IsPosition(CFG, c, i)
    ensures 0 <= 4 * c + i < 6 && NodeAt(CFG, c, i) == NODES[4 * c + i].tag
    ensures Number(NodeAt(CFG, c, i)) == 4 * c + i + 1
    ensures Declared(CFG, NodeAt(CFG, c, i)) && (Local(CFG, NodeAt(CFG, c, i)) <==> 4 * c + i != 2)
  {
    hide Find;
    var k := 4 * c + i;
    assert NodeAt(CFG, c, i) == NODES[k].tag;
    FindSound(NODES, NODES[k].tag);
    var x := Find(NODES, NODES[k].tag).value;
    var b :| 0 <= b < 6 && NODES[b] == x;
    if b < k { TagsDiffer(b, k); } else if k < b { TagsDiffer(k, b); }
  }

  lemma Links(c: int, i: int)
    requires IsPosition(CFG, c, i)
    ensures OutAt(CFG, c, i) <==> i == 0
    ensures InAt(CFG, c, i) <==> i == 1
  {
    hide Local, Number;
    if IsPosition(CFG, c, i + 1) { Places(c, i + 1); }
    if IsPosition(CFG, c, i - 1) { Places(c, i - 1); }
    Places(c, i);
  }

  lemma PlanAccepted()
    ensures Accepted(CFG, 0, PLAN)
  {
    hide Deployer.Links;
    AllTheLinks();
    var ls := Deployer.Links(CFG);
    assert Tails(ls) == ["sf1", "sf5"] && Heads(ls) == ["sf2", "sf6"];
    FourNames();
  }

  lemma FourNames()
    ensures "sf1" != "sf5" && "sf2" != "sf6"
  {
    assert "sf1"[2] != "sf5"[2] && "sf2"[2] != "sf6"[2];
  }

  lemma AllTheLinks()
    ensures Deployer.Links(CFG) == [Link("sf1", "sf2"), Link("sf5", "sf6")]
  {
    hide LinksUpTo;
    LinksOfA();
    LinksOfB();
    assert CFG.chains[0] == CHAIN_A && CFG.chains[1] == CHAIN_B;
    assert AllLinks(CFG, 0) == [];
    assert AllLinks(CFG, 1) == [Link("sf1", "sf2")];
  }

  lemma LinksOfA()
    ensures LinksUpTo(CFG, CHAIN_A, 4) == [Link("sf1", "sf2")]
  {
    hide Local;
    Places(0, 0);
    Places(0, 1);
    Places(0, 2);
    assert LinksUpTo(CFG, CHAIN_A, 1) == [];
    assert LinksUpTo(CFG, CHAIN_A, 2) == [Link("sf1", "sf2")];
    assert LinksUpTo(CFG, CHAIN_A, 3) == [Link("sf1", "sf2")];
  }

  lemma LinksOfB()
    ensures LinksUpTo(CFG, CHAIN_B, 2) == [Link("sf5", "sf6")]
  {
    hide Local;
    Places(1, 0);
    Places(1, 1);
    assert LinksUpTo(CFG, CHAIN_B, 1) == [];
  }

  lemma AllThere(w: World)
    requires w == TheWorld()
    ensures Connected(w)
  {
    hide Reported, HelloAddress, Macs, TheWorld, AllConnected, Declared, IsPosition;
    Parts(w);
    AllReported();
    forall c, i | IsPosition(w.cfg, c, i) ensures Declared(w.cfg, NodeAt(w.cfg, c, i)) { Places(c, i); }
  }

  lemma AllReported()
    ensures AllConnected(CFG, Reported())
    ensures forall n :: n in Reported() ==> Reported()[n] == HelloAddress(Macs(n))
  {
    hide HelloAddress, Macs;
  }

  lemma Omissions(n: string)
    ensures OmitsIngress(PLAN, n) <==> Number(n) in {2, 6}
    ensures OmitsEgress(PLAN, n) <==> Number(n) in {1, 5}
  {
  }

  lemma Parts(w: World)
    requires w == TheWorld()
    ensures w.cfg == CFG && w.ag == Reported() && w.plan == PLAN && w.macs == Macs
    ensures w.sf == Unchanged && w.route == Routes() && EGRESS_MAC in w.clsMacs
  {
    hide Routes, Reported;
  }

  lemma MacsAreSound(w: World)
    requires w == TheWorld()
    ensures MacsSound(w)
  {
    hide Number, OmitsIngress, OmitsEgress, TheWorld, Macs, IngressMac, IsPosition;
    Parts(w);
    forall n | HasIngress(w, n) ensures Number(n) != 0 && w.macs(n)[INGRESS_MAC] == IngressMac(n) { MacsAt(n); }
    forall c, i | IsPosition(w.cfg, c, i) ensures Equipped(w, NodeAt(w.cfg, c, i)) { EquippedAt(w, c, i); }
    SchemeIsSound(w);
  }

  lemma MacsAt(n: string)
    ensures INGRESS_MAC in Macs(n) <==> Number(n) in {1, 3, 4, 5}
    ensures EGRESS_MAC in Macs(n) <==> Number(n) in {2, 3, 4, 6}
    ensures INGRESS_MAC in Macs(n) ==> Macs(n)[INGRESS_MAC] == IngressMac(n)
  {
    hide Number;
  }

  lemma EquippedAt(w: World, c: int, i: int)
    requires w.cfg == CFG && w.plan == PLAN && w.macs == Macs && IsPosition(CFG, c, i)
    ensures Equipped(w, NodeAt(CFG, c, i))
  {
    hide Number, OmitsIngress, OmitsEgress, Macs;
    Places(c, i);
    Omissions(NodeAt(CFG, c, i));
    MacsAt(NodeAt(CFG, c, i));
  }

  lemma NothingShared()
    ensures NoSharing(CFG) && SoundIds(CFG)
  {
    hide DirectOut, Number, Local;
    forall c, i, c', i' | IsPosition(CFG, c, i) && IsPosition(CFG, c', i') && NodeAt(CFG, c, i) == NodeAt(CFG, c', i')
      ensures c == c' && i == i'
    {
      Places(c, i);
      Places(c', i');
    }
  }

  lemma RoutesAreSound(w: World)
    requires w == TheWorld()
    ensures RoutesSound(w) && |w.route| == 2
  {
    hide TheWorld, ProxyNeeded, Listed, IsPosition, Routes;
    Parts(w);
    RoutesAre();
  }

  lemma RoutesAre()
    ensures |Routes()| == 2
    ensures forall k :: k in Routes() ==> IsPosition(CFG, Routes()[k], 0) && Listed(CFG.chains[Routes()[k]], k)
  {
    hide FlowKey, Listed;
    DifferentKeys();
    FlowsListed();
    assert CFG.chains[0] == CHAIN_A && CFG.chains[1] == CHAIN_B;
  }

  lemma FlowsListed()
    ensures Listed(CHAIN_A, FlowKey(PING)) && Listed(CHAIN_B, FlowKey(FEED))
  {
    hide KeyBytes, Parse;
    FlowsParse();
    assert PING == CHAIN_A.flows[0] && FEED == CHAIN_B.flows[0];
  }

  lemma FlowsParse()
    ensures Parse(PING).Some? && Parse(FEED).Some?
  {
  }

  lemma DifferentKeys()
    ensures FlowKey(PING) != FlowKey(FEED)
  {
    hide BE32, BE16, Ip2Int;
    assert FlowKey(PING)[12] == 1 && FlowKey(FEED)[12] == 17;
  }

  /** The hypotheses can be met together, with two routed flows, direct links and encapsulated hops. */
  lemma HypothesesMet()
    ensures WellFormed(TheWorld(), 0) && FunctionsAnswer(TheWorld()) && |TheWorld().route| == 2
    ensures OutAt(CFG, 0, 0) && IsPosition(CFG, 0, 2) && !OutAt(CFG, 0, 1)
  {
    hide TheWorld, Routes, Reported, RulesOf, OutAt;
    hide MacsSound, Connected, Accepted, RoutesSound, NoSharing, SoundIds, Harmless, Answers;
    var w := TheWorld();
    Parts(w);
    PlanAccepted();
    AllThere(w);
    MacsAreSound(w);
    NothingShared();
    RoutesAreSound(w);
    forall n { RulesFew(CFG, Reported(), n); }
    forall n { UnchangedIsFine(n); }
    Links(0, 0);
    Links(0, 1);
  }

  /** Any ping goes through the four functions, over a link and two wires, and leaves the last with nothing
      but its source address on it. */
  lemma PingGoesThrough(f: Frame) returns (s1: System, s2: System, n: nat)
    requires FlowOf(f) == Some(FlowKey(PING))
    ensures Enters(TheWorld(), InstalledSystem(TheWorld()), 0, f, seq(16, _ => 0), s1)
    ensures Onward(TheWorld(), s1, s2, 0, n)
    ensures 0 in s2.flights && s2.flights[0].visited == ["sf1", "sf2", "sf3", "sf4"] && |f| >= ETH_HLEN
    ensures s2.flights[0].at == Exited("sf4", f[..6] + [2, 0, 0, 0, 1, 4] + f[12..])
  {
    hide TheWorld, InstalledSystem, FlowKey, FlowOf, WellFormed, FunctionsAnswer, Step, Initial, Enters, Onward;
    hide Macs, Routes, Arrived;
    var w := TheWorld();
    Parts(w);
    HypothesesMet();
    InstalledIsInitial(w);
    StartsEmpty(w, InstalledSystem(w));
    PingRoute();
    assert IsRun(w, [InstalledSystem(w)], []);
    s1, s2, n := CompilationCorrect(w, 0, [InstalledSystem(w)], [], 0, f, seq(16, _ => 0));
    assert ChainOf(w, s2.flights[0]) == CHAIN_A;
    ArrivedUnchanged(w, s2.flights[0]);
  }

  lemma ArrivedUnchanged(w: World, p: Flight)
    requires w.sf == Unchanged && w.macs == Macs && Arrived(w, CHAIN_A, p)
    ensures p.visited == ["sf1", "sf2", "sf3", "sf4"] && |p.origin| >= ETH_HLEN
    ensures p.at == Exited("sf4", p.origin[..6] + [2, 0, 0, 0, 1, 4] + p.origin[12..])
  {
    hide Made, Transparent, Unchanged;
    forall n { UnchangedIsFine(n); }
    EndsSame(w, CHAIN_A, p);
    assert CHAIN_A.nodes[3] == "sf4" && Number("sf4") == 4;
  }

  lemma PingRoute()
    ensures FlowKey(PING) in Routes() && Routes()[FlowKey(PING)] == 0
  {
    hide FlowKey;
    DifferentKeys();
  }

  /* ----- the smallest star ----- */

  const STAR_CHAIN: Chain := Chain(100, ["sf1", "sf2", "sf1"], [])
  const STAR: CBConfig := CBConfig([STAR_CHAIN], [Instance("sf1", true), Instance("sf2", true)])

  function StarMacs(n: string): map<nat, Mac> {
    MacsOf(n, Number(n) in {1, 2}, Number(n) in {1, 2})
  }

  function StarWorld(): World {
    World(STAR, map n | n in {"sf1", "sf2"} :: HelloAddress(StarMacs(n)), Plan(map[], map[]), StarMacs,
          map[FlowKey(PING) := 0], ClassifierMacs(), Unchanged, ZeroStack)
  }

  lemma StarPlaces(c: int, i: int)
    requires IsPosition(STAR, c, i)
    ensures Declared(STAR, NodeAt(STAR, c, i)) && !Local(STAR, NodeAt(STAR, c, i))
    ensures Number(NodeAt(STAR, c, i)) in {1, 2}
    ensures !OutAt(STAR, c, i) && !InAt(STAR, c, i)
  {
    hide Find;
    var n := NodeAt(STAR, c, i);
    assert STAR.functions[if i == 1 then 1 else 0].tag == n;
    FindSound(STAR.functions, n);
    RemoteOnly("sf1");
    RemoteOnly("sf2");
  }

  lemma RemoteOnly(n: string)
    ensures !Local(STAR, n)
  {
    hide Find;
    FindSound(STAR.functions, n);
  }

  lemma StarAccepted()
    ensures Accepted(STAR, 0, Plan(map[], map[])) && NoSharing(STAR) && SoundIds(STAR)
  {
    hide Local;
    forall n { RemoteOnly(n); }
    assert LinksUpTo(STAR, STAR_CHAIN, 1) == [];
    assert LinksUpTo(STAR, STAR_CHAIN, 2) == [];
    assert LinksUpTo(STAR, STAR_CHAIN, 3) == [];
    assert AllLinks(STAR, 0) == [];
    assert AllLinks(STAR, 1) == [];
  }

  lemma StarParts(w: World)
    requires w == StarWorld()
    ensures w.cfg == STAR && w.plan == Plan(map[], map[]) && w.macs == StarMacs && w.sf == Unchanged
    ensures w.route == map[FlowKey(PING) := 0] && EGRESS_MAC in w.clsMacs
    ensures w.ag == map n | n in {"sf1", "sf2"} :: HelloAddress(StarMacs(n))
  {
    hide FlowKey, HelloAddress;
  }

  lemma StarMacsAreSound(w: World)
    requires w == StarWorld()
    ensures MacsSound(w) && Connected(w)
  {
    hide Number, StarMacs, IngressMac, AllConnected, HelloAddress, Declared, IsPosition, StarWorld;
    StarParts(w);
    StarReported();
    forall n { StarMacsAt(n); }
    forall c, i | IsPosition(w.cfg, c, i)
      ensures Equipped(w, NodeAt(w.cfg, c, i)) && Declared(w.cfg, NodeAt(w.cfg, c, i))
    {
      StarPlaces(c, i);
    }
    SchemeIsSound(w);
  }

  lemma StarReported()
    ensures AllConnected(STAR, map n | n in {"sf1", "sf2"} :: HelloAddress(StarMacs(n)))
  {
    hide HelloAddress, StarMacs;
  }

  lemma StarMacsAt(n: string)
    ensures INGRESS_MAC in StarMacs(n) <==> Number(n) in {1, 2}
    ensures EGRESS_MAC in StarMacs(n) <==> Number(n) in {1, 2}
    ensures INGRESS_MAC in StarMacs(n) ==> StarMacs(n)[INGRESS_MAC] == IngressMac(n)
  {
    hide Number;
  }

  /** In the star two pings suffice for a run in which one leaves its path. */
  lemma StarStrays(f: Frame) returns (s: System)
    requires FlowOf(f) == Some(FlowKey(PING))
    ensures WellFormed(StarWorld(), 0) && Reachable(StarWorld(), s)
    ensures 0 in s.flights && FlowOf(s.flights[0].origin) == Some(FlowKey(PING)) && !OnPath(StarWorld(), s.flights[0])
  {
    hide StarWorld, FlowKey, FlowOf, RulesOf, MacsSound, Connected, Accepted, NoSharing, SoundIds, RoutesSound;
    hide Harmless, Answers, OnPath, Reachable;
    var w := StarWorld();
    StarParts(w);
    StarAccepted();
    StarMacsAreSound(w);
    StarRoutesAreSound(w);
    forall n { RulesFew(STAR, w.ag, n); }
    forall n { UnchangedIsFine(n); }
    assert STAR_CHAIN.nodes[0] == STAR_CHAIN.nodes[2];
    assert ComesBack(w, FlowKey(PING));
    s := Strays(w, 0, FlowKey(PING), f);
  }

  lemma StarRoutesAreSound(w: World)
    requires w == StarWorld()
    ensures RoutesSound(w)
  {
    hide FlowKey, ProxyNeeded, StarWorld;
    StarParts(w);
    forall c, i ensures !ProxyNeeded(STAR, c, i) { StarNeedsNone(c, i); }
  }

  lemma StarNeedsNone(c: int, i: int)
    ensures !ProxyNeeded(STAR, c, i)
  {
    hide Local;
    forall n { RemoteOnly(n); }
  }

  /* ----- the classifier script ----- */

  /** The entries the repository's script writes by hand are the keys and the path header of the model:
      10.10.0.1:10000 to 10.10.0.2:20000 over UDP, the same addresses over ICMP, path 100 at index 255. */
  lemma ScriptEntries()
    ensures KeyBytes(FiveTuple(0x0A0A_0001, 0x0A0A_0002, 10000, 20000, 17))
         == [0x0a, 0x0a, 0x00, 0x01, 0x0a, 0x0a, 0x00, 0x02, 0x27, 0x10, 0x4e, 0x20, 0x11]
    ensures KeyBytes(FiveTuple(0x0A0A_0001, 0x0A0A_0002, 0, 0, 1))
         == [0x0a, 0x0a, 0x00, 0x01, 0x0a, 0x0a, 0x00, 0x02, 0x00, 0x00, 0x00, 0x00, 0x01]
    ensures PathSph(100, 255) == [0x00, 0x00, 0x64, 0xff]
  {
    NetworkOrder(0x0A0A_0001, [0x0a, 0x0a, 0x00, 0x01]);
    NetworkOrder(0x0A0A_0002, [0x0a, 0x0a, 0x00, 0x02]);
    NetworkOrder(0x100 * 100 + 255, [0x00, 0x00, 0x64, 0xff]);
    hide BE32;
    assert BE16(10000) == [0x27, 0x10] && BE16(20000) == [0x4e, 0x20];
  }
}
