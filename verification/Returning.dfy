/** Chains that come back to a node: the stored headers are kept per flow, so two packets of one flow can
    disturb each other there, and exactly there. */
module Returning {
  import opened Bytes
  import opened Frames
  import opened Stages
  import opened Pipeline
  import opened Config
  import opened Manager
  import opened Rules
  import opened Agent
  import opened Agreement
  import opened Tables
  import opened Network
  import opened Safety
  import opened EndToEnd

  /* ----- runs ----- */

  function ChainNodes(cfg: CBConfig): set<string> {
    set c, i | 0 <= c < |cfg.chains| && 0 <= i < |cfg.chains[c].nodes| :: cfg.chains[c].nodes[i]
  }

  /** The state in which the agents have installed what they were sent. */
  function InstalledSystem(w: World): System {
    System(map n | n in ChainNodes(w.cfg) :: ProxyTableOf(w.cfg, w.ag, n, w.stacks(n)), map[])
  }

  lemma InstalledIsInitial(w: World)
    ensures Initial(w, InstalledSystem(w))
  {
    hide ProxyTableOf, ChainNodes;
    var s := InstalledSystem(w);
    forall n ensures TableOf(s, n) == ProxyTableOf(w.cfg, w.ag, n, w.stacks(n)) {
      if n !in ChainNodes(w.cfg) { NoRulesElsewhere(w, n); }
    }
  }

  lemma NoRulesElsewhere(w: World, n: string)
    requires n !in ChainNodes(w.cfg)
    ensures ProxyTableOf(w.cfg, w.ag, n, w.stacks(n)) == map[]
  {
    hide RulesOf, ChainNodes;
    var rules := RulesOf(w.cfg, w.ag, n).proxy;
    if rules != [] { ProxiedIsInChain(w, n, rules[0]); }
    assert ProxyEntries(rules, w.stacks(n)) == [];
  }

  lemma ProxiedIsInChain(w: World, n: string, r: ProxyRule)
    requires r in RulesOf(w.cfg, w.ag, n).proxy
    ensures n in ChainNodes(w.cfg)
  {
    hide RulesOf, SphAt, NeedsProxy, Parse;
    ProxyRulesExact(w.cfg, w.ag, n, r);
    var c, i :| ProxyFrom(w.cfg, n, r, c, i);
    assert w.cfg.chains[c].nodes[i] == n;
  }

  /** Some run ends in the state. */
  ghost predicate Reachable(w: World, s: System) {
    exists states, actions :: IsRun(w, states, actions) && states[|actions|] == s
  }

  lemma InitialReachable(w: World, s: System)
    requires Initial(w, s)
    ensures Reachable(w, s)
  {
    hide Initial;
    assert IsRun(w, [s], []);
  }

  lemma StepReachable(w: World, s: System, a: Action, s': System)
    requires Reachable(w, s) && Step(w, s, a, s')
    ensures Reachable(w, s')
  {
    hide Step, Initial;
    var states, actions :| IsRun(w, states, actions) && states[|actions|] == s;
    assert IsRun(w, states + [s'], actions + [a]);
    assert (states + [s'])[|actions + [a]|] == s';
  }

  lemma {:induction false} OnwardReachable(w: World, s: System, s': System, id: nat, n: nat)
    requires Reachable(w, s) && Onward(w, s, s', id, n)
    ensures Reachable(w, s')
    decreases n
  {
    hide Step, Reachable;
    if n > 0 {
      var a, m :| Step(w, s, a, m) && Moves(a, id) && Onward(w, m, s', id, n - 1);
      StepReachable(w, s, a, m);
      OnwardReachable(w, m, s', id, n - 1);
    }
  }

  lemma ReachableOk(w: World, base: nat, s: System)
    requires WellFormed(w, base) && Reachable(w, s)
    ensures Invariant(w, s)
  {
    hide WellFormed, Step, Initial, Invariant;
    var states, actions :| IsRun(w, states, actions) && states[|actions|] == s;
    RunKeeps(w, base, states, actions, |actions|);
  }

  /* ----- the exact condition ----- */

  /** In every run, every packet of flow k is on its path. */
  ghost predicate AlwaysOnPath(w: World, k: Key) {
    forall s, id :: Reachable(w, s) && id in s.flights && FlowOf(s.flights[id].origin) == Some(k) ==>
      OnPath(w, s.flights[id])
  }

  /** In every run, every packet of flow k waits for its stages with the header of its position in place. */
  ghost predicate AlwaysInPlace(w: World, k: Key) {
    forall s, id :: Reachable(w, s) && id in s.flights && FlowOf(s.flights[id].origin) == Some(k) ==>
      FlightOk(w, s, s.flights[id])
  }

  /** Chains that come back to no node keep all packets in all runs on their path; on every chain that comes
      back, two packets of one flow suffice for a run that does not. */
  lemma ExactlyWithoutReturn(w: World, base: nat, k: Key, f: Frame)
    requires WellFormed(w, base) && FunctionsAnswer(w) && k in w.route && FlowOf(f) == Some(k)
    ensures AlwaysOnPath(w, k) <==> !ComesBack(w, k)
    ensures AlwaysInPlace(w, k) <==> !ComesBack(w, k)
  {
    hide WellFormed, FunctionsAnswer, ComesBack, FlowOf, Reachable, OnPath, FlightOk, Intact;
    if ComesBack(w, k) {
      var s := Strays(w, base, k, f);
      ReachableOk(w, base, s);
      IntactIn(w, s, 0);
      if FlightOk(w, s, s.flights[0]) { FlightOnPath(w, s, s.flights[0]); }
    } else {
      forall s, id | Reachable(w, s) && id in s.flights && FlowOf(s.flights[id].origin) == Some(k)
        ensures FlightOk(w, s, s.flights[id]) && OnPath(w, s.flights[id])
      {
        ReachableOk(w, base, s);
        IntactIn(w, s, id);
        StraightOk(w, s, id);
        FlightOnPath(w, s, s.flights[id]);
      }
    }
  }

  lemma StraightOk(w: World, s: System, id: nat)
    requires Invariant(w, s) && id in s.flights && Straight(w, s.flights[id])
    ensures FlightOk(w, s, s.flights[id])
  {
    hide StoredRouted, ProxiesInPlace, EntriesInPosition, Intact, FlightOk, Straight;
  }

  /* ----- a run that strays ----- */

  /** A node visited twice, the second time the last before the ways part or the chain ends. */
  lemma PartingPlaces(nodes: seq<string>, i0: nat, j0: nat) returns (i: nat, j: nat)
    requires i0 < j0 < |nodes| && nodes[i0] == nodes[j0]
    ensures i < j < |nodes| && nodes[i] == nodes[j] && (j + 1 < |nodes| ==> nodes[i + 1] != nodes[j + 1])
    decreases |nodes| - j0
  {
    i, j := i0, j0;
    if j0 + 1 < |nodes| && nodes[i0 + 1] == nodes[j0 + 1] { i, j := PartingPlaces(nodes, i0 + 1, j0 + 1); }
  }

  /** Places i and j of the flow's chain are the same node, and from there the chain goes on in different ways. */
  ghost predicate Parting(w: World, k: Key, i: nat, j: nat) {
    && k in w.route && IsPosition(w.cfg, w.route[k], i) && IsPosition(w.cfg, w.route[k], i + 1)
    && IsPosition(w.cfg, w.route[k], j) && i < j
    && var nodes := w.cfg.chains[w.route[k]].nodes;
       nodes[i] == nodes[j] && (j + 1 < |nodes| ==> nodes[i + 1] != nodes[j + 1])
  }

  /** No node that is visited twice touches a direct link. */
  lemma PartingIsWired(w: World, base: nat, k: Key, i: nat, j: nat)
    requires WellFormed(w, base) && Parting(w, k, i, j)
    ensures !OutAt(w.cfg, w.route[k], i) && !InAt(w.cfg, w.route[k], i + 1)
  {
    hide WellFormed, OutAt, InAt;
    IdsAndRules(w, base);
    var c := w.route[k];
    assert NodeAt(w.cfg, c, i) == NodeAt(w.cfg, c, j);
    NotBehindLink(w, c, i);
  }

  /** Packet 0 waits at place j, and the header of place i is stored there. */
  ghost predicate Overtaken(w: World, s: System, k: Key, i: nat, j: nat) {
    && 0 in s.flights && FlowOf(s.flights[0].origin) == Some(k) && Parting(w, k, i, j)
    && var p := s.flights[0];
       && |p.visited| == j && p.at == AtFunction(NodeAt(w.cfg, w.route[k], i), Inner(p))
       && HasHeader(w, s, k, w.route[k], i)
  }

  /** A packet of the flow enters and is brought to place i. */
  lemma BroughtTo(w: World, base: nat, s: System, id: nat, f: Frame, k: Key, i: nat) returns (s': System)
    requires WellFormed(w, base) && FunctionsAnswer(w) && Reachable(w, s) && id !in s.flights
    requires FlowOf(f) == Some(k) && k in w.route && IsPosition(w.cfg, w.route[k], i)
    ensures Reachable(w, s') && id in s'.flights && s'.flights[id].origin == f && FlightOk(w, s', s'.flights[id])
    ensures s'.flights[id].at.AtFunction? && |s'.flights[id].visited| == i
    ensures forall x :: x != id ==> (x in s.flights <==> x in s'.flights)
    ensures forall x :: x != id && x in s.flights ==> s'.flights[x] == s.flights[x]
  {
    hide WellFormed, FunctionsAnswer, Reachable, FlowOf, Invariant, Enters, Onward, FlightOk, Step;
    var context: seq<byte> := seq(16, _ => 0);
    ReachableOk(w, base, s);
    var s1 := EntryPossible(w, base, s, id, f, context);
    EntryIsStep(w, s, id, f, context, s1);
    StepReachable(w, s, Enter(id, f, context), s1);
    ReachableOk(w, base, s1);
    FreshWithin(w, base, s, id, f, context, s1);
    var n;
    s', n := Completes(w, base, s1, id, ToFunction(i), 3 * |ChainOf(w, s1.flights[id]).nodes| + 1);
    OnwardReachable(w, s1, s', id, n);
    forall x | x != id
      ensures (x in s.flights <==> x in s'.flights) && (x in s.flights ==> s'.flights[x] == s.flights[x])
    {
      OnwardLeavesOthers(w, s1, s', id, n, x);
    }
  }

  lemma WaitsAt(w: World, s: System, id: nat, k: Key, i: nat)
    requires id in s.flights && FlightOk(w, s, s.flights[id]) && FlowOf(s.flights[id].origin) == Some(k)
    requires s.flights[id].at.AtFunction? && |s.flights[id].visited| == i
    ensures k in w.route && IsPosition(w.cfg, w.route[k], i) && s.flights[id].visited <= w.cfg.chains[w.route[k]].nodes
    ensures s.flights[id].at == AtFunction(NodeAt(w.cfg, w.route[k], i), Inner(s.flights[id]))
    ensures !OutAt(w.cfg, w.route[k], i) ==> HasHeader(w, s, k, w.route[k], i)
  {
    hide FlowOf, HasHeader, OutAt;
  }

  /** Packet 0 waits at the second visit when packet 1 is received at the first. */
  lemma CanBeOvertaken(w: World, base: nat, k: Key, f: Frame, i: nat, j: nat) returns (s: System)
    requires WellFormed(w, base) && FunctionsAnswer(w) && FlowOf(f) == Some(k) && Parting(w, k, i, j)
    ensures Reachable(w, s) && Overtaken(w, s, k, i, j) && s.flights[0].visited == w.cfg.chains[w.route[k]].nodes[..j]
  {
    hide WellFormed, FunctionsAnswer, Reachable, FlowOf, FlightOk, HasHeader;
    var s0 := InstalledSystem(w);
    InstalledIsInitial(w);
    InitialReachable(w, s0);
    var s1 := BroughtTo(w, base, s0, 0, f, k, j);
    WaitsAt(w, s1, 0, k, j);
    s := BroughtTo(w, base, s1, 1, f, k, i);
    WaitsAt(w, s, 1, k, i);
    PartingIsWired(w, base, k, i, j);
    var nodes := w.cfg.chains[w.route[k]].nodes;
    assert s.flights[0].visited == nodes[..j];
  }

  /** Packet 0 is behind the encap stage of place i, with the header of the place after it. */
  ghost predicate Misheaded(w: World, s: System, k: Key, i: nat) {
    && k in w.route && IsPosition(w.cfg, w.route[k], i) && IsPosition(w.cfg, w.route[k], i + 1)
    && 0 in s.flights
    && var p := s.flights[0];
       && p.at.Between? && p.at.node == NodeAt(w.cfg, w.route[k], i)
       && Headed(w, w.route[k], i + 1, Inner(p), p.at.frame)
  }

  /** Packet 0 is on the wire to the place after i. */
  ghost predicate Misdirected(w: World, s: System, k: Key, i: nat) {
    && k in w.route && IsPosition(w.cfg, w.route[k], i + 1) && 0 in s.flights
    && var p := s.flights[0];
       && p.at.OnWire?
       && Carries(w, w.route[k], i + 1, AddressOf(w.ag, NodeAt(w.cfg, w.route[k], i + 1)), Inner(p), p.at.frame)
  }

  /** Packet 0 is at the function of the place after i. */
  ghost predicate Misplaced(w: World, s: System, k: Key, i: nat) {
    && k in w.route && IsPosition(w.cfg, w.route[k], i + 1) && 0 in s.flights
    && s.flights[0].at.AtFunction? && s.flights[0].at.node == NodeAt(w.cfg, w.route[k], i + 1)
  }

  /** Served at place j, the packet gets the header that follows place i. */
  lemma Missent(w: World, base: nat, s: System, k: Key, i: nat, j: nat) returns (a: Action, s': System)
    requires WellFormed(w, base) && FunctionsAnswer(w) && Invariant(w, s) && Overtaken(w, s, k, i, j)
    ensures Step(w, s, a, s') && Misheaded(w, s', k, i)
    ensures s'.flights[0].visited == s.flights[0].visited + [NodeAt(w.cfg, w.route[k], i)]
  {
    hide WellFormed, FunctionsAnswer, Invariant, FlowOf, HasHeader, Encap, Carries, OutAt, InAt, Intact;
    var c, p, n := w.route[k], s.flights[0], NodeAt(w.cfg, w.route[k], i);
    PartingIsWired(w, base, k, i, j);
    AtPosition(w, base, c, i);
    var peer, g, p' := ServePossible(w, base, s, c, i, p);
    IntactIn(w, s, 0);
    ServeIntact(w, base, s, p, peer, g, p');
    EncapOne(w, base, s, k, c, i, g);
    a, s' := Serve(0, peer, g), Put(s, 0, p');
    var dst: Mac := g[..6];
    assert Carries(w, c, i + 1, dst, Inner(p'), p'.at.frame);
  }

  lemma Misemitted(w: World, base: nat, s: System, k: Key, i: nat, j: nat) returns (a: Action, s': System)
    requires WellFormed(w, base) && Parting(w, k, i, j) && Misheaded(w, s, k, i)
    ensures Step(w, s, a, s') && Misdirected(w, s', k, i) && s'.flights[0].visited == s.flights[0].visited
  {
    hide WellFormed, Forward, Carries, OutAt, InAt, AddressOf, FlowOf;
    var p := s.flights[0];
    PartingIsWired(w, base, k, i, j);
    var dst: Mac :| Carries(w, w.route[k], i + 1, dst, Inner(p), p.at.frame);
    ForwardOne(w, base, s, w.route[k], i, dst, Inner(p), p.at.frame);
    a, s' := EmitPossible(w, s, 0);
  }

  lemma Misreceived(w: World, base: nat, s: System, k: Key, i: nat, j: nat) returns (a: Action, s': System)
    requires WellFormed(w, base) && Invariant(w, s) && Parting(w, k, i, j) && Misdirected(w, s, k, i)
    requires FlowOf(s.flights[0].origin) == Some(k)
    ensures Step(w, s, a, s') && Misplaced(w, s', k, i) && s'.flights[0].visited == s.flights[0].visited
  {
    hide WellFormed, Decap, Carries, OutAt, InAt, AddressOf, FlowOf, HasIngress, HeaderAt, Wraps, Made;
    hide ProxiesInPlace, EntriesInPosition, StraightOnChain, StoredRouted, Parting;
    var c, p, n := w.route[k], s.flights[0], NodeAt(w.cfg, w.route[k], i + 1);
    PartingIsWired(w, base, k, i, j);
    a, s' := ReceivePossible(w, base, s, 0, c, i + 1, Inner(p));
    CarriedTo(w, c, i + 1, AddressOf(w.ag, n), Inner(p), p.at.frame);
    AtPosition(w, base, c, i + 1);
    var h := ReceiveOne(w, base, s, k, c, i + 1, n, Inner(p), p.at.frame);
  }

  lemma Misserved(w: World, base: nat, s: System, k: Key, i: nat) returns (a: Action, s': System)
    requires WellFormed(w, base) && FunctionsAnswer(w) && Misplaced(w, s, k, i)
    ensures Step(w, s, a, s') && 0 in s'.flights
    ensures s'.flights[0].visited == s.flights[0].visited + [NodeAt(w.cfg, w.route[k], i + 1)]
  {
    hide WellFormed, FunctionsAnswer, Encap;
    var peer, g, p' := ServePossible(w, base, s, w.route[k], i + 1, s.flights[0]);
    a, s' := Serve(0, peer, g), Put(s, 0, p');
  }

  /** Four more steps take the overtaken packet to the place after i instead of the one after j. */
  lemma OvertakenPacketStrays(w: World, base: nat, s: System, k: Key, i: nat, j: nat) returns (s': System)
    requires WellFormed(w, base) && FunctionsAnswer(w) && Reachable(w, s) && Overtaken(w, s, k, i, j)
    ensures Reachable(w, s') && 0 in s'.flights && s'.flights[0].origin == s.flights[0].origin
    ensures s'.flights[0].visited
         == s.flights[0].visited + [NodeAt(w.cfg, w.route[k], i), NodeAt(w.cfg, w.route[k], i + 1)]
  {
    hide WellFormed, FunctionsAnswer, Reachable, Step, Misheaded, Misdirected, Misplaced, FlowOf, Invariant;
    ReachableOk(w, base, s);
    var a1, s1 := Missent(w, base, s, k, i, j);
    Onwards(w, s, a1, s1);
    var a2, s2 := Misemitted(w, base, s1, k, i, j);
    Onwards(w, s1, a2, s2);
    ReachableOk(w, base, s2);
    var a3, s3 := Misreceived(w, base, s2, k, i, j);
    Onwards(w, s2, a3, s3);
    var a4;
    a4, s' := Misserved(w, base, s3, k, i);
    Onwards(w, s3, a4, s');
  }

  lemma Onwards(w: World, s: System, a: Action, s': System)
    requires Reachable(w, s) && Step(w, s, a, s') && 0 in s.flights
    ensures Reachable(w, s') && 0 in s'.flights && s'.flights[0].origin == s.flights[0].origin
  {
    hide Reachable, Step;
    StepReachable(w, s, a, s');
    if Moves(a, 0) { MovesMine(w, s, a, s', 0); } else { OthersLeaveAlone(w, s, a, s', 0); }
  }

  lemma Strays(w: World, base: nat, k: Key, f: Frame) returns (s: System)
    requires WellFormed(w, base) && FunctionsAnswer(w) && FlowOf(f) == Some(k) && ComesBack(w, k)
    ensures Reachable(w, s) && 0 in s.flights && FlowOf(s.flights[0].origin) == Some(k)
    ensures !OnPath(w, s.flights[0])
  {
    hide WellFormed, FunctionsAnswer, Reachable, FlowOf, Made, ExitOk;
    var nodes := w.cfg.chains[w.route[k]].nodes;
    var i, j :| 0 <= i < j < |nodes| && nodes[i] == nodes[j];
    i, j := PartingPlaces(nodes, i, j);
    var m := CanBeOvertaken(w, base, k, f, i, j);
    s := OvertakenPacketStrays(w, base, m, k, i, j);
    NotAPrefix(nodes, i, j);
  }

  lemma NotAPrefix(nodes: seq<string>, i: nat, j: nat)
    requires i < j < |nodes| && nodes[i] == nodes[j] && (j + 1 < |nodes| ==> nodes[i + 1] != nodes[j + 1])
    ensures !(nodes[..j] + [nodes[i], nodes[i + 1]] <= nodes)
  {
    var v := nodes[..j] + [nodes[i], nodes[i + 1]];
    assert v[j + 1] == nodes[i + 1];
  }
}
