/** The deployed system: classifier, nodes with their tables, wires and direct links, and any number of
    packets under way. */
module Network {
  import opened Bytes
  import opened Frames
  import opened Stages
  import opened Pipeline
  import opened Classifier
  import opened Config
  import opened Manager
  import opened Rules
  import opened Agent
  import opened Deployer
  import opened Agreement
  import opened Tables

  /** What a function may make of a frame: a relation, so that it can keep state of its own and choose. */
  type Behaviour = (Frame, Frame) -> bool

  /** The bytes the flow key is read from stay as they are. */
  ghost predicate Harmless(b: Behaviour) {
    forall f, g :: b(f, g) ==> FlowOf(g) == FlowOf(f)
  }

  /** Some output is possible for every frame. */
  ghost predicate Answers(b: Behaviour) {
    forall f :: HasOutput(b, f)
  }

  ghost predicate HasOutput(b: Behaviour, f: Frame) {
    exists g :: b(f, g)
  }

  /** A deployment: the configuration, what the agents reported, the accepted plan, the addresses in each
      node's `src_mac` map, the chain each classified flow goes through, what each function may do to a frame,
      and the bytes that happen to lie behind each proxy header. */
  datatype World = World(cfg: CBConfig, ag: Agents, plan: Plan, macs: string -> map<nat, Mac>,
                         route: map<Key, nat>, clsMacs: map<nat, Mac>,
                         sf: string -> Behaviour, stacks: string -> Stacks)

  /* ----- hypotheses ----- */

  /** Node n decapsulates what is addressed to it. */
  ghost predicate HasIngress(w: World, n: string) {
    !OmitsIngress(w.plan, n) && INGRESS_MAC in w.macs(n)
  }

  /** Every declared node has an agent connected, which has reported the address it was started with. */
  ghost predicate Connected(w: World) {
    && AllConnected(w.cfg, w.ag)
    && (forall c, i :: IsPosition(w.cfg, c, i) ==> Declared(w.cfg, NodeAt(w.cfg, c, i)))
    && (forall n :: n in w.ag ==> w.ag[n] == HelloAddress(w.macs(n)))
  }

  /** Chain nodes have the addresses their stages need; ingress addresses are unicast and distinct. */
  ghost predicate MacsSound(w: World) {
    && (forall c, i :: IsPosition(w.cfg, c, i) && !OmitsIngress(w.plan, NodeAt(w.cfg, c, i)) ==>
          HasIngress(w, NodeAt(w.cfg, c, i)))
    && (forall c, i :: IsPosition(w.cfg, c, i) && !OmitsEgress(w.plan, NodeAt(w.cfg, c, i)) ==>
          EGRESS_MAC in w.macs(NodeAt(w.cfg, c, i)))
    && (forall n :: HasIngress(w, n) ==> Unicast(w.macs(n)[INGRESS_MAC]))
    && (forall n, m :: HasIngress(w, n) && HasIngress(w, m) && w.macs(n)[INGRESS_MAC] == w.macs(m)[INGRESS_MAC] ==>
          n == m)
  }

  /** Classified flows fit the tables, go through existing non-empty chains, and are listed where a chain
      needs proxy rules. */
  ghost predicate RoutesSound(w: World) {
    && |w.route| <= MAX_ENTRIES
    && (forall k :: k in w.route ==> IsPosition(w.cfg, w.route[k], 0))
    && (forall k, i :: k in w.route && ProxyNeeded(w.cfg, w.route[k], i) ==> Listed(w.cfg.chains[w.route[k]], k))
  }

  /** Position i ends a run of direct links. */
  ghost predicate ProxyNeeded(cfg: CBConfig, c: int, i: int) {
    IsPosition(cfg, c, i) && NeedsProxy(cfg, cfg.chains[c], i)
  }

  ghost predicate Listed(ch: Chain, k: Key) {
    exists fl :: fl in ch.flows && Parse(fl).Some? && KeyBytes(Parse(fl).value) == k
  }

  ghost predicate RulesFit(w: World) {
    forall n :: |RulesOf(w.cfg, w.ag, n).fwd| <= MAX_ENTRIES && |RulesOf(w.cfg, w.ag, n).proxy| <= MAX_ENTRIES
  }

  ghost predicate WellFormed(w: World, base: nat) {
    && Accepted(w.cfg, base, w.plan) && NoSharing(w.cfg) && SoundIds(w.cfg)
    && Connected(w) && MacsSound(w) && RoutesSound(w) && RulesFit(w) && EGRESS_MAC in w.clsMacs
    && (forall n :: Harmless(w.sf(n)))
  }

  /* ----- states ----- */

  datatype Place =
    | OnWire(frame: Frame)
    | AtFunction(node: string, frame: Frame)
    | Between(node: string, frame: Frame) // behind encap, before forward
    | Exited(node: string, frame: Frame)
    | Dropped
    | Vanished                            // lost by the medium, by a function or by the kernel

  /** A packet: the frame it entered as, the functions it has passed, what each made of it, and its place. */
  datatype Flight = Flight(origin: Frame, visited: seq<string>, frames: seq<Frame>, at: Place)

  datatype System = System(tables: map<string, NshTable>, flights: map<nat, Flight>)

  /** The frame inside, as the last function left it. */
  function Inner(p: Flight): Frame {
    if p.frames == [] then p.origin else p.frames[|p.frames| - 1]
  }

  function TableOf(s: System, n: string): NshTable {
    if n in s.tables then s.tables[n] else map[]
  }

  function NodeStateOf(w: World, s: System, n: string): NodeState {
    NodeState(TableOf(s, n), FwdTableOf(w.cfg, w.ag, n), w.macs(n))
  }

  function Put(s: System, id: nat, p: Flight): System {
    s.(flights := s.flights[id := p])
  }

  /** The classifier entry of a flow: its chain's path id at index 255, towards the first node. */
  function ClsEntryOf(w: World, k: Key): ClsEntry {
    if k in w.route && IsPosition(w.cfg, w.route[k], 0) && w.cfg.chains[w.route[k]].id < 0x100_0000 then
      var ch := w.cfg.chains[w.route[k]];
      ClsEntry(PathSph(ch.id, 255), AddressOf(w.ag, ch.nodes[0]))
    else ClsEntry([0, 0, 0, 0], [0, 0, 0, 0, 0, 0])
  }

  function ClsTableOf(w: World): ClsTable {
    map k | k in w.route :: ClsEntryOf(w, k)
  }

  /* ----- steps ----- */

  datatype Action =
    | Enter(id: nat, frame: Frame, context: seq<byte>)
    | Receive(id: nat, node: string)
    | Serve(id: nat, peer: string, output: Frame)
    | Emit(id: nat)
    | Vanish(id: nat)

  predicate Active(p: Flight) {
    p.at.OnWire? || p.at.AtFunction? || p.at.Between?
  }

  /** The classifier sends a packet of a routed flow on its way. */
  ghost predicate Enters(w: World, s: System, id: nat, f: Frame, context: seq<byte>, s': System) {
    && id !in s.flights && |context| == 16
    && FlowOf(f).Some? && FlowOf(f).value in w.route
    && var out := ClassifySpec(ClsTableOf(w), w.clsMacs, f, true, context);
       out.Wire? && s' == Put(s, id, Flight(f, [], [], OnWire(out.frame)))
  }

  /** The node with the destination address runs its ingress stage. */
  ghost predicate Receives(w: World, s: System, id: nat, n: string, s': System) {
    && id in s.flights && s.flights[id].at.OnWire?
    && var p := s.flights[id];
       var d := Decap(NodeStateOf(w, s, n), p.at.frame);
       && HasIngress(w, n) && |p.at.frame| >= ETH_HLEN && p.at.frame[..6] == w.macs(n)[INGRESS_MAC]
       && s' == System(s.tables[n := d.nshData],
                       s.flights[id := p.(at := if d.verdict == Pass then AtFunction(n, d.frame) else Dropped)])
  }

  /** The function handles the frame; then it goes down the direct link, or through the encap stage. */
  ghost predicate Served(w: World, s: System, p: Flight, peer: string, g: Frame, p': Flight)
    requires p.at.AtFunction?
  {
    var n := p.at.node;
    var next := p.(visited := p.visited + [n], frames := p.frames + [g]);
    && w.sf(n)(p.at.frame, g)
    && if OmitsEgress(w.plan, n) then
         && peer in w.plan.ingress && w.plan.ingress[peer] == LinkEnd(w.plan.egress[n].id, false)
         && p' == next.(at := AtFunction(peer, g))
       else
         p' == next.(at := AfterEncap(n, Encap(NodeStateOf(w, s, n), g, true)))
  }

  function AfterEncap(n: string, e: Egress): Place {
    if e.verdict == Pass then Exited(n, e.frame) else if e.verdict == Next then Between(n, e.frame) else Dropped
  }

  ghost predicate Serves(w: World, s: System, id: nat, peer: string, g: Frame, s': System) {
    && id in s.flights && s.flights[id].at.AtFunction? && id in s'.flights
    && Served(w, s, s.flights[id], peer, g, s'.flights[id]) && s' == Put(s, id, s'.flights[id])
  }

  ghost predicate Emits(w: World, s: System, id: nat, s': System) {
    && id in s.flights && s.flights[id].at.Between?
    && var p := s.flights[id];
       var e := Forward(NodeStateOf(w, s, p.at.node), p.at.frame);
       s' == Put(s, id, p.(at := if e.verdict == Pass then OnWire(e.frame) else Dropped))
  }

  ghost predicate Step(w: World, s: System, a: Action, s': System) {
    match a
    case Enter(id, f, context) => Enters(w, s, id, f, context, s')
    case Receive(id, n) => Receives(w, s, id, n, s')
    case Serve(id, peer, g) => Serves(w, s, id, peer, g, s')
    case Emit(id) => Emits(w, s, id, s')
    case Vanish(id) => id in s.flights && Active(s.flights[id]) && s' == Put(s, id, s.flights[id].(at := Vanished))
  }

  /** The action moves the packet along. */
  predicate Moves(a: Action, id: nat) {
    (a.Receive? || a.Serve? || a.Emit?) && a.id == id
  }

  /** Every agent has installed its rules; no packet is under way. */
  ghost predicate Initial(w: World, s: System) {
    && s.flights == map[]
    && (forall n :: TableOf(s, n) == ProxyTableOf(w.cfg, w.ag, n, w.stacks(n)))
  }

  /** Any interleaving of any steps from an initial state. */
  ghost predicate IsRun(w: World, states: seq<System>, actions: seq<Action>) {
    && |states| == |actions| + 1 && Initial(w, states[0])
    && (forall j :: 0 <= j < |actions| ==> Step(w, states[j], actions[j], states[j + 1]))
  }

  /* ----- chains that come back to a node ----- */

  predicate Repeats(ch: Chain) {
    exists i, j :: 0 <= i < j < |ch.nodes| && ch.nodes[i] == ch.nodes[j]
  }

  /** The chain of the flow visits some node twice. */
  predicate ComesBack(w: World, k: Key) {
    k in w.route && IsPosition(w.cfg, w.route[k], 0) && Repeats(w.cfg.chains[w.route[k]])
  }

  /** Some other packet of the flow is under way. */
  ghost predicate Accompanied(s: System, k: Key, id: nat) {
    exists x :: x in s.flights && x != id && Active(s.flights[x]) && FlowOf(s.flights[x].origin) == Some(k)
  }

  /** Where its chain comes back to a node, the packet is under way without company: nodes keep headers per flow. */
  ghost predicate Undisturbed(w: World, s: System, id: nat) {
    id in s.flights && Active(s.flights[id]) && FlowOf(s.flights[id].origin).Some? ==>
      var k := FlowOf(s.flights[id].origin).value; ComesBack(w, k) ==> !Accompanied(s, k, id)
  }

  ghost predicate UndisturbedUpTo(w: World, states: seq<System>, j: nat, id: nat) {
    forall m :: 0 <= m <= j && m < |states| ==> Undisturbed(w, states[m], id)
  }

  /* ----- what is true of every packet ----- */

  /** What went into the i-th function. */
  function Input(p: Flight, i: nat): Frame
    requires i <= |p.frames|
  {
    if i == 0 then p.origin else p.frames[i - 1]
  }

  /** Each function made its frame of the one before. */
  ghost predicate Made(w: World, p: Flight) {
    && |p.frames| == |p.visited|
    && (forall i :: 0 <= i < |p.visited| ==> w.sf(p.visited[i])(Input(p, i), p.frames[i]))
  }

  /** Whatever way it went, the packet carries what the functions made of it, under the key of its flow. */
  ghost predicate Intact(w: World, p: Flight) {
    && FlowOf(p.origin).Some? && FlowOf(p.origin).value in w.route
    && FlowOf(Inner(p)) == FlowOf(p.origin) && Made(w, p)
    && match p.at
       case OnWire(f) => Wraps(Inner(p), f)
       case Between(_, f) => Wraps(Inner(p), f)
       case AtFunction(_, f) => f == Inner(p)
       case _ => true
  }

  /** An NSH frame around g. */
  ghost predicate Wraps(g: Frame, f: Frame) {
    exists dst: Mac, src: Mac, h: Nsh :: f == NshWire(dst, src, h, g)
  }

  /* ----- what is true of a packet on its chain ----- */

  ghost predicate HasHeader(w: World, s: System, k: Key, c: int, i: int) {
    && IsPosition(w.cfg, c, i)
    && k in TableOf(s, NodeAt(w.cfg, c, i)) && HeaderAt(w.cfg, c, i, TableOf(s, NodeAt(w.cfg, c, i))[k])
  }

  /** The wire form of g on its way to position i, whatever its outer addresses. */
  ghost predicate Carries(w: World, c: int, i: int, dst: Mac, g: Frame, f: Frame)
    requires IsPosition(w.cfg, c, i)
  {
    exists src: Mac, h: Nsh :: HeaderAt(w.cfg, c, i, h) && f == NshWire(dst, src, h, g)
  }

  ghost predicate Headed(w: World, c: int, i: int, g: Frame, f: Frame)
    requires IsPosition(w.cfg, c, i)
  {
    exists dst: Mac :: Carries(w, c, i, dst, g, f)
  }

  ghost predicate FlightOk(w: World, s: System, p: Flight) {
    && FlowOf(p.origin).Some? && FlowOf(p.origin).value in w.route
    && var k := FlowOf(p.origin).value;
       var c := w.route[k];
       IsPosition(w.cfg, c, 0) && PlaceOk(w, s, k, c, w.cfg.chains[c], p)
  }

  /** A packet is where its visits so far say it is, with the header of its position stored there. */
  ghost predicate PlaceOk(w: World, s: System, k: Key, c: int, ch: Chain, p: Flight)
    requires 0 <= c < |w.cfg.chains| && ch == w.cfg.chains[c]
  {
    var v := |p.visited|;
    && p.visited <= ch.nodes
    && match p.at
       case OnWire(f) =>
         v < |ch.nodes| && !InAt(w.cfg, c, v) && Carries(w, c, v, AddressOf(w.ag, ch.nodes[v]), Inner(p), f)
       case AtFunction(n, f) =>
         && v < |ch.nodes| && n == ch.nodes[v] && f == Inner(p)
         && (!OutAt(w.cfg, c, v) ==> HasHeader(w, s, k, c, v))
       case Between(n, f) =>
         && 0 < v < |ch.nodes| && n == ch.nodes[v - 1] && !OutAt(w.cfg, c, v - 1)
         && Headed(w, c, v, Inner(p), f)
       case Exited(n, f) => ExitOk(w, ch, p, n, f)
       case Dropped => false
       case Vanished => true
  }

  /** The packet has passed exactly the functions of its chain, in order, and left the last node with
      nothing but the functions' work and a new source address. */
  ghost predicate ExitOk(w: World, ch: Chain, p: Flight, n: string, f: Frame) {
    && p.visited == ch.nodes && 0 < |ch.nodes| && n == ch.nodes[|ch.nodes| - 1]
    && |Inner(p)| >= ETH_HLEN && EGRESS_MAC in w.macs(n) && f == WithSrcMac(Inner(p), w.macs(n)[EGRESS_MAC])
  }

  /* ----- the invariant of every run ----- */

  /** Nodes with an ingress stage store routed flows only. */
  ghost predicate StoredRouted(w: World, s: System) {
    forall n :: HasIngress(w, n) ==> TableOf(s, n).Keys <= w.route.Keys
  }

  /** Proxy entries are in place. */
  ghost predicate ProxiesInPlace(w: World, s: System) {
    forall k, i :: k in w.route && ProxyNeeded(w.cfg, w.route[k], i) ==> HasHeader(w, s, k, w.route[k], i)
  }

  /** On a chain that visits no node twice, each stored header of a flow is that of the node's position. */
  ghost predicate EntriesInPosition(w: World, s: System) {
    forall k, i ::
      k in w.route && IsPosition(w.cfg, w.route[k], i) && !ComesBack(w, k)
      && k in TableOf(s, NodeAt(w.cfg, w.route[k], i))
      ==> HasHeader(w, s, k, w.route[k], i)
  }

  /** Packets of flows whose chain comes back to no node are on their chains. */
  ghost predicate StraightOnChain(w: World, s: System) {
    forall id :: id in s.flights && Straight(w, s.flights[id]) ==> FlightOk(w, s, s.flights[id])
  }

  predicate Straight(w: World, p: Flight) {
    FlowOf(p.origin).Some? && !ComesBack(w, FlowOf(p.origin).value)
  }

  ghost predicate Invariant(w: World, s: System) {
    && StoredRouted(w, s) && ProxiesInPlace(w, s) && EntriesInPosition(w, s) && StraightOnChain(w, s)
    && (forall id :: id in s.flights ==> Intact(w, s.flights[id]))
  }
}
