/** What the invariant means for a packet: it stays on its chain, it gets to the end, it comes out right. */
module EndToEnd {
  import opened Bytes
  import opened Frames
  import opened Stages
  import opened Pipeline
  import opened Classifier
  import opened Config
  import opened Manager
  import opened Rules
  import opened Deployer
  import opened Agreement
  import opened Tables
  import opened Network
  import opened Safety

  /* ----- safety ----- */

  ghost predicate OnRoute(w: World, p: Flight) {
    && FlowOf(p.origin).Some? && FlowOf(p.origin).value in w.route
    && IsPosition(w.cfg, w.route[FlowOf(p.origin).value], 0)
  }

  function ChainOf(w: World, p: Flight): Chain
    requires OnRoute(w, p)
  {
    w.cfg.chains[w.route[FlowOf(p.origin).value]]
  }

  /** No stage has dropped the packet, it has passed a prefix of its chain, and if it left it has passed all
      of it and is what the functions made of it, with the last node's source address. */
  ghost predicate OnPath(w: World, p: Flight) {
    && OnRoute(w, p) && Made(w, p) && p.at != Dropped && p.visited <= ChainOf(w, p).nodes
    && (p.at.Exited? ==> ExitOk(w, ChainOf(w, p), p, p.at.node, p.at.frame))
  }

  lemma FlightOnPath(w: World, s: System, p: Flight)
    requires FlightOk(w, s, p) && Intact(w, p)
    ensures OnPath(w, p)
  {
    hide FlowOf, ExitOk, Carries, HasHeader, Made, Wraps, InAt, OutAt, AddressOf;
  }

  /** In every state of every interleaved run, a packet is on its path, unless its chain comes back to a node
      and it had company of its own flow on the way. */
  lemma PathSafety(w: World, base: nat, states: seq<System>, actions: seq<Action>, j: nat, id: nat)
    requires WellFormed(w, base) && IsRun(w, states, actions) && j < |states| && id in states[j].flights
    requires UndisturbedUpTo(w, states, j, id)
    ensures OnPath(w, states[j].flights[id])
  {
    hide WellFormed, IsRun, FlightOk, Intact, OnPath, UndisturbedUpTo;
    hide StoredRouted, ProxiesInPlace, EntriesInPosition, StraightOnChain;
    RunKeeps(w, base, states, actions, j);
    FlightKeeps(w, base, states, actions, j, id);
    FlightOnPath(w, states[j], states[j].flights[id]);
  }

  /** In every state of every run, a header stored for a flow at the node of position i of its chain carries
      the chain's path id and index 255 - i, unless the chain comes back to a node. */
  lemma StoredHeadersInPosition(w: World, base: nat, states: seq<System>, actions: seq<Action>, j: nat, k: Key, i: nat)
    requires WellFormed(w, base) && IsRun(w, states, actions) && j < |states|
    requires k in w.route && IsPosition(w.cfg, w.route[k], i) && !ComesBack(w, k)
    requires k in TableOf(states[j], NodeAt(w.cfg, w.route[k], i))
    ensures HeaderAt(w.cfg, w.route[k], i, TableOf(states[j], NodeAt(w.cfg, w.route[k], i))[k])
  {
    hide WellFormed, IsRun, StoredRouted, ProxiesInPlace, StraightOnChain, HeaderAt, ComesBack, Intact;
    RunKeeps(w, base, states, actions, j);
    assert HasHeader(w, states[j], k, w.route[k], i);
  }

  /* ----- progress ----- */

  /** An upper bound on the moves a packet has before it. */
  function Remaining(w: World, p: Flight): nat
    requires OnRoute(w, p) && p.visited <= ChainOf(w, p).nodes
  {
    var left := |ChainOf(w, p).nodes| - |p.visited|;
    match p.at
    case OnWire(_) => 3 * left + 1
    case AtFunction(_, _) => 3 * left
    case Between(_, _) => 3 * left + 2
    case _ => 0
  }

  /** What a move does to the record of a packet. */
  predicate Moved(p: Flight, p': Flight) {
    && p'.origin == p.origin
    && match p.at
       case OnWire(_) => p'.visited == p.visited && (p'.at.AtFunction? || p'.at == Dropped)
       case AtFunction(n, _) =>
         && p'.visited == p.visited + [n]
         && (p'.at.AtFunction? || p'.at.Between? || p'.at.Exited? || p'.at == Dropped)
       case Between(_, _) => p'.visited == p.visited && (p'.at.OnWire? || p'.at == Dropped)
       case _ => false
  }

  lemma MovesMove(w: World, s: System, a: Action, s': System, id: nat)
    requires Step(w, s, a, s') && Moves(a, id)
    ensures id in s.flights && id in s'.flights && Moved(s.flights[id], s'.flights[id])
  {
    hide FlowOf, Decap, Encap, Forward, HasIngress, OmitsEgress;
  }

  lemma OkOnRoute(w: World, s: System, p: Flight)
    requires FlightOk(w, s, p)
    ensures OnRoute(w, p) && p.visited <= ChainOf(w, p).nodes && p.at != Dropped
    ensures Active(p) ==> |p.visited| < |ChainOf(w, p).nodes| || p.at.Between?
  {
    hide FlowOf, ExitOk, Carries, HasHeader, InAt, OutAt, AddressOf;
  }

  /** The packet is on its chain and has at most m moves before it. */
  ghost predicate Within(w: World, s: System, id: nat, m: nat) {
    && id in s.flights && FlightOk(w, s, s.flights[id])
    && OnRoute(w, s.flights[id]) && s.flights[id].visited <= ChainOf(w, s.flights[id]).nodes
    && Remaining(w, s.flights[id]) <= m
  }

  /** Whatever moves a packet takes it nearer to its end and never loses it. */
  lemma EveryMoveAdvances(w: World, base: nat, s: System, a: Action, s': System, id: nat, m: nat)
    requires WellFormed(w, base) && Invariant(w, s) && Step(w, s, a, s') && Moves(a, id) && Within(w, s, id, m)
    ensures m > 0 && Within(w, s', id, m - 1) && s'.flights[id].origin == s.flights[id].origin
    ensures Active(s'.flights[id]) || s'.flights[id].at.Exited?
  {
    hide WellFormed, Invariant, Step, FlowOf, FlightOk, Moves;
    MovesMove(w, s, a, s', id);
    OwnMove(w, base, s, a, s', id);
    OkOnRoute(w, s, s.flights[id]);
    OkOnRoute(w, s', s'.flights[id]);
  }

  ghost predicate FunctionsAnswer(w: World) {
    forall n :: Answers(w.sf(n))
  }

  /** A packet on its chain is never stuck: whatever other packets there are, its next move is possible. */
  lemma NeverStuck(w: World, base: nat, s: System, id: nat) returns (a: Action, s': System)
    requires WellFormed(w, base) && FunctionsAnswer(w) && Invariant(w, s)
    requires id in s.flights && Active(s.flights[id]) && FlightOk(w, s, s.flights[id])
    ensures Step(w, s, a, s') && Moves(a, id)
  {
    hide WellFormed, Invariant, FunctionsAnswer, FlowOf, HasHeader, Decap, Forward, Carries, OutAt, InAt, AddressOf;
    hide ExitOk, Served;
    var p := s.flights[id];
    var c := w.route[FlowOf(p.origin).value];
    match p.at
    case OnWire(f) =>
      a, s' := ReceivePossible(w, base, s, id, c, |p.visited|, Inner(p));
    case AtFunction(n, f) =>
      var peer, g, p' := ServePossible(w, base, s, c, |p.visited|, p);
      a, s' := Serve(id, peer, g), Put(s, id, p');
    case Between(n, f) =>
      a, s' := EmitPossible(w, s, id);
  }

  lemma ReceivePossible(w: World, base: nat, s: System, id: nat, c: int, i: int, g: Frame)
    returns (a: Action, s': System)
    requires WellFormed(w, base) && id in s.flights && s.flights[id].at.OnWire?
    requires IsPosition(w.cfg, c, i) && !InAt(w.cfg, c, i)
    requires Carries(w, c, i, AddressOf(w.ag, NodeAt(w.cfg, c, i)), g, s.flights[id].at.frame)
    ensures a == Receive(id, NodeAt(w.cfg, c, i)) && Step(w, s, a, s')
  {
    hide WellFormed, Decap, Carries, InAt, AddressOf, HasIngress, FlowOf;
    var p, n := s.flights[id], NodeAt(w.cfg, c, i);
    AtPosition(w, base, c, i);
    CarriedTo(w, c, i, AddressOf(w.ag, n), g, p.at.frame);
    var d := Decap(NodeStateOf(w, s, n), p.at.frame);
    var at := if d.verdict == Pass then AtFunction(n, d.frame) else Dropped;
    a, s' := Receive(id, n), System(s.tables[n := d.nshData], s.flights[id := p.(at := at)]);
  }

  lemma EmitPossible(w: World, s: System, id: nat) returns (a: Action, s': System)
    requires id in s.flights && s.flights[id].at.Between?
    ensures a == Emit(id) && Step(w, s, a, s')
  {
    hide Forward, FlowOf;
    var p := s.flights[id];
    var e := Forward(NodeStateOf(w, s, p.at.node), p.at.frame);
    a, s' := Emit(id), Put(s, id, p.(at := if e.verdict == Pass then OnWire(e.frame) else Dropped));
  }

  lemma ServePossible(w: World, base: nat, s: System, c: int, i: int, p: Flight)
    returns (peer: string, g: Frame, p': Flight)
    requires WellFormed(w, base) && FunctionsAnswer(w) && p.at.AtFunction?
    requires IsPosition(w.cfg, c, i) && p.at.node == NodeAt(w.cfg, c, i)
    ensures Served(w, s, p, peer, g, p')
  {
    hide WellFormed, Encap, OutAt;
    var n := p.at.node;
    assert HasOutput(w.sf(n), p.at.frame);
    g :| w.sf(n)(p.at.frame, g);
    var next := p.(visited := p.visited + [n], frames := p.frames + [g]);
    AtPosition(w, base, c, i);
    if OutAt(w.cfg, c, i) {
      LinkLeadsOn(w, base, c, i, NodeAt(w.cfg, c, if IsPosition(w.cfg, c, i + 1) then i + 1 else i));
      peer := NodeAt(w.cfg, c, i + 1);
      p' := next.(at := AtFunction(peer, g));
    } else {
      peer, p' := n, next.(at := AfterEncap(n, Encap(NodeStateOf(w, s, n), g, true)));
    }
  }

  lemma CarriedTo(w: World, c: int, i: int, dst: Mac, g: Frame, f: Frame)
    requires IsPosition(w.cfg, c, i) && Carries(w, c, i, dst, g, f)
    ensures |f| >= ENCAP_LEN && f[..6] == dst
  {
    hide HeaderAt;
    var src: Mac, h :| HeaderAt(w.cfg, c, i, h) && f == NshWire(dst, src, h, g);
    NshWireFields(dst, src, h, g);
  }

  /* ----- one packet driven along ----- */

  /** The run goes on by moves of one packet only: all others stay as they are. */
  ghost predicate Onward(w: World, s: System, s': System, id: nat, n: nat)
    decreases n
  {
    if n == 0 then s == s' else exists a, m :: Step(w, s, a, m) && Moves(a, id) && Onward(w, m, s', id, n - 1)
  }

  lemma {:induction false} OnwardLeavesOthers(w: World, s: System, s': System, id: nat, n: nat, x: nat)
    requires Onward(w, s, s', id, n) && x != id
    ensures x in s.flights <==> x in s'.flights
    ensures x in s.flights ==> s'.flights[x] == s.flights[x]
    decreases n
  {
    hide Step;
    if n > 0 {
      var a, m :| Step(w, s, a, m) && Moves(a, id) && Onward(w, m, s', id, n - 1);
      MovesMine(w, s, a, m, id);
      OnwardLeavesOthers(w, m, s', id, n - 1, x);
    }
  }

  lemma {:induction false} OnwardKeeps(w: World, base: nat, s: System, s': System, id: nat, n: nat)
    requires WellFormed(w, base) && Invariant(w, s) && Onward(w, s, s', id, n)
    ensures Invariant(w, s')
    decreases n
  {
    hide WellFormed, Invariant, Step;
    if n > 0 {
      var a, m :| Step(w, s, a, m) && Moves(a, id) && Onward(w, m, s', id, n - 1);
      StepKeeps(w, base, s, a, m);
      OnwardKeeps(w, base, m, s', id, n - 1);
    }
  }

  /** A stage of a packet's way at which to stop. */
  datatype Goal = ToFunction(position: nat) | ToExit

  predicate Reached(p: Flight, goal: Goal) {
    match goal
    case ToFunction(i) => p.at.AtFunction? && |p.visited| == i
    case ToExit => p.at.Exited?
  }

  /** The goal lies ahead of the packet. */
  ghost predicate Ahead(w: World, p: Flight, goal: Goal) {
    OnRoute(w, p) && match goal case ToFunction(i) => |p.visited| <= i < |ChainOf(w, p).nodes| case ToExit => true
  }

  /** From every reachable state, whatever else is under way, a packet on its chain can be brought to any
      function ahead of it and to the end. */
  lemma {:induction false} Completes(w: World, base: nat, s: System, id: nat, goal: Goal, bound: nat)
    returns (s': System, n: nat)
    requires WellFormed(w, base) && FunctionsAnswer(w) && Invariant(w, s) && Within(w, s, id, bound)
    requires Active(s.flights[id]) && Ahead(w, s.flights[id], goal)
    ensures Onward(w, s, s', id, n) && n <= bound && Invariant(w, s')
    ensures id in s'.flights && s'.flights[id].origin == s.flights[id].origin
    ensures FlightOk(w, s', s'.flights[id]) && Reached(s'.flights[id], goal)
    decreases bound
  {
    hide WellFormed, FunctionsAnswer, Invariant, Step, FlightOk, FlowOf, Moves;
    if Reached(s.flights[id], goal) {
      s', n := s, 0;
    } else {
      var a, m := NeverStuck(w, base, s, id);
      MovesMove(w, s, a, m, id);
      EveryMoveAdvances(w, base, s, a, m, id, bound);
      StepKeeps(w, base, s, a, m);
      if m.flights[id].at.Exited? {
        ExitedIsLast(w, m, m.flights[id]);
        s', n := m, 1;
        assert Onward(w, m, s', id, 0);
      } else {
        var r;
        s', r := Completes(w, base, m, id, goal, bound - 1);
        n := r + 1;
      }
    }
  }

  lemma ExitedIsLast(w: World, s: System, p: Flight)
    requires FlightOk(w, s, p) && p.at.Exited?
    ensures OnRoute(w, p) && p.visited == ChainOf(w, p).nodes
  {
    hide FlowOf;
  }

  /* ----- the whole way ----- */

  /** The classifier can send off any frame of a routed flow. */
  lemma EntryPossible(w: World, base: nat, s: System, id: nat, f: Frame, context: seq<byte>) returns (s': System)
    requires WellFormed(w, base) && id !in s.flights && |context| == 16
    requires FlowOf(f).Some? && FlowOf(f).value in w.route
    ensures Enters(w, s, id, f, context, s') && id in s'.flights && s' == Put(s, id, s'.flights[id])
    ensures s'.flights[id] == Flight(f, [], [], s'.flights[id].at) && s'.flights[id].at.OnWire?
  {
    hide Accepted, NoSharing, MacsSound, Connected, RoutesSound, RulesFit, Harmless, SoundIds, FlowOf, ClsEntryOf;
    var out := ClassifySpec(ClsTableOf(w), w.clsMacs, f, true, context);
    s' := Put(s, id, Flight(f, [], [], OnWire(out.frame)));
  }

  lemma EntryIsStep(w: World, s: System, id: nat, f: Frame, context: seq<byte>, s': System)
    requires Enters(w, s, id, f, context, s')
    ensures Step(w, s, Enter(id, f, context), s')
  {
    hide Enters;
  }

  lemma FreshWithin(w: World, base: nat, s: System, id: nat, f: Frame, context: seq<byte>, s': System)
    requires WellFormed(w, base) && Enters(w, s, id, f, context, s')
    ensures Within(w, s', id, 3 * |ChainOf(w, s'.flights[id]).nodes| + 1)
  {
    hide WellFormed, FlightOk, FlowOf, ClassifySpec;
    EnteredOk(w, base, s, Enter(id, f, context), s');
    OkOnRoute(w, s', s'.flights[id]);
  }

  /** It has visited exactly the chain's nodes in order and left the last one as the frame the functions
      made of it, with that node's source address. */
  ghost predicate Arrived(w: World, ch: Chain, p: Flight) {
    && Made(w, p) && p.visited == ch.nodes && 0 < |ch.nodes| && |Inner(p)| >= ETH_HLEN
    && var last := ch.nodes[|ch.nodes| - 1];
       EGRESS_MAC in w.macs(last) && p.at == Exited(last, WithSrcMac(Inner(p), w.macs(last)[EGRESS_MAC]))
  }

  lemma ExitedMeansArrived(w: World, p: Flight)
    requires OnPath(w, p) && p.at.Exited?
    ensures Arrived(w, ChainOf(w, p), p)
  {
    hide FlowOf, Made;
  }

  /** End to end: in every reachable state, whatever else is under way, a frame of a routed flow can enter and
      go on until it has visited exactly the chain's nodes in order and left the last one as it should. */
  lemma CompilationCorrect(w: World, base: nat, states: seq<System>, actions: seq<Action>, id: nat, f: Frame,
                           context: seq<byte>)
    returns (s1: System, s2: System, n: nat)
    requires WellFormed(w, base) && FunctionsAnswer(w) && IsRun(w, states, actions) && |context| == 16
    requires id !in states[|actions|].flights && FlowOf(f).Some? && FlowOf(f).value in w.route
    ensures Enters(w, states[|actions|], id, f, context, s1) && Onward(w, s1, s2, id, n)
    ensures id in s2.flights && s2.flights[id].origin == f && OnRoute(w, s2.flights[id])
    ensures n <= 3 * |ChainOf(w, s2.flights[id]).nodes| + 1
    ensures Arrived(w, ChainOf(w, s2.flights[id]), s2.flights[id])
  {
    hide WellFormed, FunctionsAnswer, IsRun, Step, FlowOf, FlightOk, Onward, Invariant, Enters, Arrived, Intact;
    RunLength(w, states, actions);
    var s := states[|actions|];
    RunKeeps(w, base, states, actions, |actions|);
    s1 := EntryPossible(w, base, s, id, f, context);
    EntryIsStep(w, s, id, f, context, s1);
    StepKeeps(w, base, s, Enter(id, f, context), s1);
    FreshWithin(w, base, s, id, f, context, s1);
    s2, n := Completes(w, base, s1, id, ToExit, 3 * |ChainOf(w, s1.flights[id]).nodes| + 1);
    IntactIn(w, s2, id);
    FlightOnPath(w, s2, s2.flights[id]);
    ExitedMeansArrived(w, s2.flights[id]);
  }

  lemma RunLength(w: World, states: seq<System>, actions: seq<Action>)
    requires IsRun(w, states, actions)
    ensures |states| == |actions| + 1
  {
    hide Step, Initial;
  }

  lemma IntactIn(w: World, s: System, id: nat)
    requires Invariant(w, s) && id in s.flights
    ensures Intact(w, s.flights[id])
  {
    hide Intact, StoredRouted, ProxiesInPlace, EntriesInPosition, StraightOnChain;
  }

  /* ----- every run ----- */

  ghost predicate CanMove(w: World, s: System, id: nat) {
    exists a, s' :: Step(w, s, a, s') && Moves(a, id)
  }

  /** How many of the first j actions move the packet. */
  function MovesUpTo(actions: seq<Action>, id: nat, j: nat): nat
    requires j <= |actions|
  {
    if j == 0 then 0 else MovesUpTo(actions, id, j - 1) + (if Moves(actions[j - 1], id) then 1 else 0)
  }

  /** The number of moves a packet can make at most: three a chain node, and one. */
  ghost predicate Bounded(w: World, s: System, id: nat, made: nat) {
    && id in s.flights && OnRoute(w, s.flights[id])
    && made <= 3 * |ChainOf(w, s.flights[id]).nodes| + 1
    && Within(w, s, id, 3 * |ChainOf(w, s.flights[id]).nodes| + 1 - made)
  }

  lemma VanishingStaysWithin(w: World, s: System, s': System, id: nat, m: nat)
    requires Within(w, s, id, m) && id in s'.flights && FlightOk(w, s', s'.flights[id])
    requires s'.flights[id] == s.flights[id] || s'.flights[id] == s.flights[id].(at := Vanished)
    ensures Within(w, s', id, m)
  {
    hide FlightOk, FlowOf;
  }

  /** The moves an undisturbed packet has made and those it may still make stay within the bound. */
  lemma {:induction false} MovesBounded(w: World, base: nat, states: seq<System>, actions: seq<Action>, id: nat, j: nat)
    requires WellFormed(w, base) && IsRun(w, states, actions) && j <= |actions| && UndisturbedUpTo(w, states, j, id)
    ensures id in states[j].flights ==> Bounded(w, states[j], id, MovesUpTo(actions, id, j))
    ensures id !in states[j].flights ==> MovesUpTo(actions, id, j) == 0
  {
    hide WellFormed, Step, Initial, Invariant, FlightOk, FlowOf, Moves, Undisturbed, Within, Enters;
    if j == 0 {
      StartsEmpty(w, states[0]);
    } else {
      var s, a, s' := states[j - 1], actions[j - 1], states[j];
      MovesBounded(w, base, states, actions, id, j - 1);
      RunKeeps(w, base, states, actions, j - 1);
      if Moves(a, id) {
        MovesMine(w, s, a, s', id);
        MoveStaysBounded(w, base, s, a, s', id, MovesUpTo(actions, id, j - 1));
      } else {
        OthersLeaveAlone(w, s, a, s', id);
        if id in s'.flights { WaitStaysBounded(w, base, states, actions, id, j); }
      }
    }
  }

  lemma MoveStaysBounded(w: World, base: nat, s: System, a: Action, s': System, id: nat, made: nat)
    requires WellFormed(w, base) && Invariant(w, s) && Step(w, s, a, s') && Moves(a, id) && Bounded(w, s, id, made)
    ensures Bounded(w, s', id, made + 1)
  {
    hide WellFormed, Invariant, Step, FlowOf, FlightOk, Moves, Remaining;
    EveryMoveAdvances(w, base, s, a, s', id, 3 * |ChainOf(w, s.flights[id]).nodes| + 1 - made);
  }

  lemma WaitStaysBounded(w: World, base: nat, states: seq<System>, actions: seq<Action>, id: nat, j: nat)
    requires WellFormed(w, base) && IsRun(w, states, actions) && 0 < j <= |actions|
    requires UndisturbedUpTo(w, states, j, id) && id in states[j].flights && !Moves(actions[j - 1], id)
    requires id in states[j - 1].flights ==> Bounded(w, states[j - 1], id, MovesUpTo(actions, id, j - 1))
    requires id !in states[j - 1].flights ==> MovesUpTo(actions, id, j - 1) == 0
    ensures Bounded(w, states[j], id, MovesUpTo(actions, id, j))
  {
    hide WellFormed, Step, Initial, Invariant, FlightOk, FlowOf, Moves, Within, Undisturbed;
    var s, a, s' := states[j - 1], actions[j - 1], states[j];
    FlightKeeps(w, base, states, actions, j, id);
    OthersLeaveAlone(w, s, a, s', id);
    if id in s.flights {
      VanishingStaysWithin(w, s, s', id, 3 * |ChainOf(w, s.flights[id]).nodes| + 1 - MovesUpTo(actions, id, j));
    } else {
      StartsWithin(w, s', id);
    }
  }

  lemma StartsWithin(w: World, s: System, id: nat)
    requires id in s.flights && FlightOk(w, s, s.flights[id])
    requires s.flights[id].visited == [] && s.flights[id].at.OnWire?
    ensures Bounded(w, s, id, 0)
  {
    hide FlightOk, FlowOf;
    OkOnRoute(w, s, s.flights[id]);
  }

  /** In every run, however the packets interleave, an undisturbed packet makes at most three moves a node and
      one; and when it can make no more it has arrived, unless it was lost. */
  lemma EveryRunArrives(w: World, base: nat, states: seq<System>, actions: seq<Action>, id: nat)
    requires WellFormed(w, base) && FunctionsAnswer(w) && IsRun(w, states, actions)
    requires id in states[|actions|].flights && UndisturbedUpTo(w, states, |actions|, id)
    ensures var s, p := states[|actions|], states[|actions|].flights[id];
            && OnRoute(w, p) && MovesUpTo(actions, id, |actions|) <= 3 * |ChainOf(w, p).nodes| + 1
            && (CanMove(w, s, id) || p.at == Vanished || Arrived(w, ChainOf(w, p), p))
  {
    hide WellFormed, FunctionsAnswer, Initial, Step, FlowOf, Invariant, Arrived, Moves, Within, FlightOk, Made, ExitOk;
    hide UndisturbedUpTo;
    var s, p := states[|actions|], states[|actions|].flights[id];
    MovesBounded(w, base, states, actions, id, |actions|);
    RunKeeps(w, base, states, actions, |actions|);
    FlightKeeps(w, base, states, actions, |actions|, id);
    PathSafety(w, base, states, actions, |actions|, id);
    if Active(p) {
      var a, s' := NeverStuck(w, base, s, id);
      assert CanMove(w, s, id);
    } else if p.at.Exited? {
      ExitedMeansArrived(w, p);
    }
  }

  /** A function that changes nothing. */
  ghost predicate Transparent(b: Behaviour) {
    forall f, g :: b(f, g) ==> g == f
  }

  /** With such functions the frame comes out as it went in but for the source address. */
  lemma TransparentChain(w: World, ch: Chain, p: Flight)
    requires Arrived(w, ch, p) && (forall n :: n in ch.nodes ==> Transparent(w.sf(n)))
    ensures |p.origin| >= ETH_HLEN && p.at.Exited? && |p.at.frame| == |p.origin|
    ensures p.at.frame[..6] == p.origin[..6] && p.at.frame[12..] == p.origin[12..]
  {
    hide Transparent, Made;
    EndsSame(w, ch, p);
  }

  lemma EndsSame(w: World, ch: Chain, p: Flight)
    requires Made(w, p) && p.visited == ch.nodes && (forall n :: n in ch.nodes ==> Transparent(w.sf(n)))
    ensures Inner(p) == p.origin
  {
    hide Transparent, Made;
    SameAllAlong(w, ch, p, |p.frames|);
  }

  lemma {:induction false} SameAllAlong(w: World, ch: Chain, p: Flight, i: nat)
    requires Made(w, p) && p.visited == ch.nodes && i <= |p.frames|
    requires forall n :: n in ch.nodes ==> Transparent(w.sf(n))
    ensures Input(p, i) == p.origin
  {
    hide Transparent, Made;
    if i > 0 {
      SameAllAlong(w, ch, p, i - 1);
      MadeAt(w, p, i - 1);
      assert ch.nodes[i - 1] in ch.nodes;
      SameAfter(w.sf(p.visited[i - 1]), Input(p, i - 1), p.frames[i - 1]);
    }
  }

  lemma MadeAt(w: World, p: Flight, i: nat)
    requires Made(w, p) && i < |p.frames|
    ensures |p.visited| == |p.frames| && w.sf(p.visited[i])(Input(p, i), p.frames[i])
  {
  }

  lemma SameAfter(b: Behaviour, f: Frame, g: Frame)
    requires Transparent(b) && b(f, g)
    ensures g == f
  {
  }
}
