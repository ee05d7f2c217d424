/** Deployer and manager decide about direct links independently; here is when they agree. */
module Agreement {
  import opened Bytes
  import opened Config
  import opened Manager
  import opened Rules
  import opened Deployer

  /** What an accepting run of the planning loops establishes. */
  ghost predicate Accepted(cfg: CBConfig, base: nat, plan: Plan) {
    DistinctEnds(Links(cfg)) && PlanFor(Links(cfg), base, plan)
  }

  predicate OutAt(cfg: CBConfig, c: int, i: int) {
    IsPosition(cfg, c, i) && IsPosition(cfg, c, i + 1) && DirectOut(cfg, cfg.chains[c], i)
  }

  predicate InAt(cfg: CBConfig, c: int, i: int) {
    IsPosition(cfg, c, i) && DirectIn(cfg, cfg.chains[c], i)
  }

  /** The agent runs without the stages of a direction where the plan has an interface for it. */
  predicate OmitsEgress(plan: Plan, n: string) { n in plan.egress }
  predicate OmitsIngress(plan: Plan, n: string) { n in plan.ingress }

  /* ----- every direct position has a place of its own in the list of links ----- */

  function Place(cfg: CBConfig, c: int, i: int): nat
    requires OutAt(cfg, c, i)
  {
    |AllLinks(cfg, c)| + |LinksUpTo(cfg, cfg.chains[c], i + 1)|
  }

  lemma PlaceIsRight(cfg: CBConfig, c: int, i: int)
    requires OutAt(cfg, c, i)
    ensures Place(cfg, c, i) < |AllLinks(cfg, c + 1)| <= |Links(cfg)|
    ensures Links(cfg)[Place(cfg, c, i)] == Link(NodeAt(cfg, c, i), NodeAt(cfg, c, i + 1))
  {
    var ch := cfg.chains[c];
    var l, a, b := Link(ch.nodes[i], ch.nodes[i + 1]), LinksUpTo(cfg, ch, i + 1), LinksUpTo(cfg, ch, |ch.nodes|);
    LinksPrefix(cfg, ch, i + 2, |ch.nodes|);
    assert a + [l] <= b;
    assert b[|a|] == (a + [l])[|a|];
    AllLinksPrefix(cfg, c + 1, |cfg.chains|);
    assert AllLinks(cfg, c + 1) == AllLinks(cfg, c) + b;
  }

  lemma PlaceInjective(cfg: CBConfig, c: int, i: int, c': int, i': int)
    requires OutAt(cfg, c, i) && OutAt(cfg, c', i') && (c < c' || (c == c' && i < i'))
    ensures Place(cfg, c, i) < Place(cfg, c', i')
  {
    if c < c' {
      PlaceIsRight(cfg, c, i);
      AllLinksPrefix(cfg, c + 1, c');
    } else {
      LinksPrefix(cfg, cfg.chains[c], i + 2, i' + 1);
    }
  }

  /** In an accepted configuration no two positions share the upstream or the downstream node of their links. */
  lemma UniqueLinks(cfg: CBConfig, c: int, i: int, c': int, i': int)
    requires DistinctEnds(Links(cfg))
    requires OutAt(cfg, c, i) && OutAt(cfg, c', i') && (c, i) != (c', i')
    ensures NodeAt(cfg, c, i) != NodeAt(cfg, c', i') && NodeAt(cfg, c, i + 1) != NodeAt(cfg, c', i' + 1)
  {
    hide OutAt, Links, Place;
    if c < c' || (c == c' && i < i') {
      PlaceInjective(cfg, c, i, c', i');
    } else {
      PlaceInjective(cfg, c', i', c, i);
    }
    PlaceIsRight(cfg, c, i);
    PlaceIsRight(cfg, c', i');
    var ls, p, q := Links(cfg), Place(cfg, c, i), Place(cfg, c', i');
    assert Tails(ls)[p] == ls[p].tail && Tails(ls)[q] == ls[q].tail;
    assert Heads(ls)[p] == ls[p].head && Heads(ls)[q] == ls[q].head;
  }

  /** The plan names exactly the nodes at the ends of direct links. */
  lemma PlanNames(cfg: CBConfig, base: nat, plan: Plan, n: string)
    requires Accepted(cfg, base, plan)
    ensures OmitsEgress(plan, n) <==> exists c, i :: OutAt(cfg, c, i) && NodeAt(cfg, c, i) == n
    ensures OmitsIngress(plan, n) <==> exists c, i :: InAt(cfg, c, i) && NodeAt(cfg, c, i) == n
  {
    hide Links, DirectOut, Place, DistinctEnds, Accepted;
    PlannedTails(cfg, base, plan, n);
    PlannedHeads(cfg, base, plan, n);
    if c, i :| OutAt(cfg, c, i) && NodeAt(cfg, c, i + 1) == n {
      assert InAt(cfg, c, i + 1);
    }
    if c, i :| InAt(cfg, c, i) && NodeAt(cfg, c, i) == n {
      assert OutAt(cfg, c, i - 1);
    }
  }

  lemma PlannedTails(cfg: CBConfig, base: nat, plan: Plan, n: string)
    requires Accepted(cfg, base, plan)
    ensures n in plan.egress <==> exists c, i :: OutAt(cfg, c, i) && NodeAt(cfg, c, i) == n
  {
    hide Links, DirectOut, Place, DistinctEnds;
    var ls := Links(cfg);
    if n in plan.egress {
      var k :| 0 <= k < |ls| && Tails(ls)[k] == n;
      LinksMember(cfg, ls[k]);
      var c, i :| LinkFrom(cfg, ls[k], c, i);
      assert OutAt(cfg, c, i) && NodeAt(cfg, c, i) == n;
    }
    if c, i :| OutAt(cfg, c, i) && NodeAt(cfg, c, i) == n {
      PlaceIsRight(cfg, c, i);
      assert Tails(ls)[Place(cfg, c, i)] == n;
    }
  }

  lemma PlannedHeads(cfg: CBConfig, base: nat, plan: Plan, n: string)
    requires Accepted(cfg, base, plan)
    ensures n in plan.ingress <==> exists c, i :: OutAt(cfg, c, i) && NodeAt(cfg, c, i + 1) == n
  {
    hide Links, DirectOut, Place, DistinctEnds;
    var ls := Links(cfg);
    if n in plan.ingress {
      var k :| 0 <= k < |ls| && Heads(ls)[k] == n;
      LinksMember(cfg, ls[k]);
      var c, i :| LinkFrom(cfg, ls[k], c, i);
      assert OutAt(cfg, c, i) && NodeAt(cfg, c, i + 1) == n;
    }
    if c, i :| OutAt(cfg, c, i) && NodeAt(cfg, c, i + 1) == n {
      PlaceIsRight(cfg, c, i);
      assert Heads(ls)[Place(cfg, c, i)] == n;
    }
  }

  /** The two ends of a direct link carry the same number, and that number singles out the downstream node. */
  lemma PlanPairsEnds(cfg: CBConfig, base: nat, plan: Plan, c: int, i: int, m: string)
    requires Accepted(cfg, base, plan) && OutAt(cfg, c, i)
    ensures NodeAt(cfg, c, i) in plan.egress && plan.egress[NodeAt(cfg, c, i)].first
    ensures m in plan.ingress && plan.ingress[m] == LinkEnd(plan.egress[NodeAt(cfg, c, i)].id, false)
            <==> m == NodeAt(cfg, c, i + 1)
  {
    hide Links, DirectOut, Place, DistinctEnds;
    PlaceIsRight(cfg, c, i);
    var ls, p := Links(cfg), Place(cfg, c, i);
    assert Tails(ls)[p] == NodeAt(cfg, c, i) && Heads(ls)[p] == NodeAt(cfg, c, i + 1);
    if m in plan.ingress && plan.ingress[m] == LinkEnd(base + p, false) {
      var k :| 0 <= k < |ls| && Heads(ls)[k] == m;
      assert k == p;
    }
  }

  /* ----- agreement ----- */

  /** A node that touches a direct link stands at no other chain position. */
  ghost predicate NoSharing(cfg: CBConfig) {
    forall c, i, c', i' ::
      (OutAt(cfg, c, i) || InAt(cfg, c, i)) && IsPosition(cfg, c', i') && NodeAt(cfg, c, i) == NodeAt(cfg, c', i')
      ==> c == c' && i == i'
  }

  /** Everywhere the stages that are missing are those the manager counts on being missing. */
  ghost predicate StagesAgree(cfg: CBConfig, plan: Plan) {
    forall c, i :: IsPosition(cfg, c, i) ==>
      && (OmitsEgress(plan, NodeAt(cfg, c, i)) <==> OutAt(cfg, c, i))
      && (OmitsIngress(plan, NodeAt(cfg, c, i)) <==> InAt(cfg, c, i))
  }

  /** The deployer's own check is not enough; the rule its warning states is, and nothing weaker is. */
  lemma AgreementCondition(cfg: CBConfig, base: nat, plan: Plan)
    requires Accepted(cfg, base, plan)
    ensures StagesAgree(cfg, plan) <==> NoSharing(cfg)
  {
    if NoSharing(cfg) { NoSharingSuffices(cfg, base, plan); }
    if StagesAgree(cfg, plan) { NoSharingNeeded(cfg, base, plan); }
  }

  lemma NoSharingSuffices(cfg: CBConfig, base: nat, plan: Plan)
    requires Accepted(cfg, base, plan) && NoSharing(cfg)
    ensures StagesAgree(cfg, plan)
  {
    hide Accepted, OutAt, InAt;
    forall c, i | IsPosition(cfg, c, i)
      ensures OmitsEgress(plan, NodeAt(cfg, c, i)) <==> OutAt(cfg, c, i)
      ensures OmitsIngress(plan, NodeAt(cfg, c, i)) <==> InAt(cfg, c, i)
    {
      PlanNames(cfg, base, plan, NodeAt(cfg, c, i));
    }
  }

  lemma NoSharingNeeded(cfg: CBConfig, base: nat, plan: Plan)
    requires Accepted(cfg, base, plan) && StagesAgree(cfg, plan)
    ensures NoSharing(cfg)
  {
    hide DirectOut, PlanFor, DistinctEnds;
    forall c, i, c', i' | (OutAt(cfg, c, i) || InAt(cfg, c, i)) && IsPosition(cfg, c', i')
                          && NodeAt(cfg, c, i) == NodeAt(cfg, c', i')
      ensures c == c' && i == i'
    {
      if OutAt(cfg, c, i) {
        assert OutAt(cfg, c', i');
        if (c, i) != (c', i') { UniqueLinks(cfg, c, i, c', i'); }
      } else {
        assert InAt(cfg, c', i') && OutAt(cfg, c, i - 1) && OutAt(cfg, c', i' - 1);
        if (c, i) != (c', i') { UniqueLinks(cfg, c, i - 1, c', i' - 1); }
      }
    }
  }

  /** Stages and rules fit: no egress stages, no forwarding rule; no ingress stage but egress stages,
      one proxy rule per listed flow, and none elsewhere. */
  lemma StagesMatchRules(cfg: CBConfig, ag: Agents, base: nat, plan: Plan, c: int, i: int)
    requires Accepted(cfg, base, plan) && NoSharing(cfg) && IsPosition(cfg, c, i)
    requires forall fl :: fl in cfg.chains[c].flows ==> Parse(fl).Some?
    ensures OmitsEgress(plan, NodeAt(cfg, c, i)) <==> FwdAt(cfg, ag, cfg.chains[c], i) == []
    ensures |ProxiesAt(cfg, cfg.chains[c], i)| ==
            if OmitsIngress(plan, NodeAt(cfg, c, i)) && !OmitsEgress(plan, NodeAt(cfg, c, i))
            then |cfg.chains[c].flows| else 0
  {
    hide Accepted, SphAt, AddressOf;
    AgreementCondition(cfg, base, plan);
    ProxyCount(cfg, cfg.chains[c], i, cfg.chains[c].flows);
  }

  lemma {:induction false} ProxyCount(cfg: CBConfig, ch: Chain, i: nat, flows: seq<FlowText>)
    requires i < |ch.nodes| && forall fl :: fl in flows ==> Parse(fl).Some?
    ensures |ProxyAt(cfg, ch, i, flows)| == if NeedsProxy(cfg, ch, i) then |flows| else 0
  {
    if flows != [] { ProxyCount(cfg, ch, i, flows[..|flows| - 1]); }
  }

  /** A configuration the deployer lets pass although deployer and manager then disagree: in the local
      chain a, b, a the last hop back to a is a link too, so a never gets egress stages to end the chain. */
  lemma DeployerAcceptsSharedNode(id: u32)
    ensures var cfg := RoundTrip(id);
            && (forall c, i :: !NilAt(cfg, c, i)) && Accepted(cfg, 0, RoundTripPlan())
            && forall base, plan :: Accepted(cfg, base, plan) ==> !StagesAgree(cfg, plan)
  {
    hide StagesAgree, Local;
    var cfg := RoundTrip(id);
    RoundTripLocal(id);
    RoundTripAccepted(id);
    assert OutAt(cfg, 0, 0) && IsPosition(cfg, 0, 2) && NodeAt(cfg, 0, 0) == NodeAt(cfg, 0, 2);
    assert !NoSharing(cfg);
    forall base, plan | Accepted(cfg, base, plan) ensures !StagesAgree(cfg, plan) {
      AgreementCondition(cfg, base, plan);
    }
  }

  function RoundTrip(id: u32): CBConfig {
    CBConfig([Chain(id, ["a", "b", "a"], [])], [Instance("a", false), Instance("b", false)])
  }

  function RoundTripPlan(): Plan {
    Plan(map["b" := LinkEnd(0, false), "a" := LinkEnd(1, false)], map["a" := LinkEnd(0, true), "b" := LinkEnd(1, true)])
  }

  lemma RoundTripLocal(id: u32)
    ensures var cfg := RoundTrip(id);
            Local(cfg, "a") && Local(cfg, "b") && Declared(cfg, "a") && Declared(cfg, "b")
  {
    var fs := RoundTrip(id).functions;
    assert fs[..1] == [Instance("a", false)];
    assert Find(fs[..1], "a").Some?;
    assert "a" != "b" by { assert "a"[0] != "b"[0]; }
  }

  lemma RoundTripAccepted(id: u32)
    ensures Accepted(RoundTrip(id), 0, RoundTripPlan())
  {
    hide Links;
    RoundTripLinks(id);
    var ls := Links(RoundTrip(id));
    assert Tails(ls) == ["a", "b"] && Heads(ls) == ["b", "a"];
    assert "a" != "b" by { assert "a"[0] != "b"[0]; }
  }

  lemma RoundTripLinks(id: u32)
    ensures Links(RoundTrip(id)) == [Link("a", "b"), Link("b", "a")]
  {
    hide Local;
    var cfg := RoundTrip(id);
    var ch := cfg.chains[0];
    RoundTripLocal(id);
    assert LinksUpTo(cfg, ch, 1) == [];
    assert LinksUpTo(cfg, ch, 2) == [Link("a", "b")];
    assert LinksUpTo(cfg, ch, 3) == [Link("a", "b"), Link("b", "a")];
    assert AllLinks(cfg, 0) == [];
  }
}
