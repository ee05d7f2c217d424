/** The deployer: it plans the direct links and thereby which stages a node runs without. */
module Deployer {
  import opened Bytes
  import opened Config
  import opened Manager
  import opened Rules

  /** The name `dl<id>a` or `dl<id>b` of one end of a direct link. */
  datatype LinkEnd = LinkEnd(id: nat, first: bool)

  /** The interfaces chosen so far; a node with an entry runs without the stages of that direction. */
  datatype Plan = Plan(ingress: map<string, LinkEnd>, egress: map<string, LinkEnd>)

  datatype Planning = Planned(plan: Plan) | SharedNode | NilInstance

  /** A direct link: the node it leaves and the node it enters. */
  datatype Link = Link(tail: string, head: string)

  /** The links in the order the planning loops come across them. */
  function LinksUpTo(cfg: CBConfig, ch: Chain, n: nat): seq<Link>
    requires n <= |ch.nodes|
  {
    if n <= 1 then []
    else
      LinksUpTo(cfg, ch, n - 1)
      + (if DirectOut(cfg, ch, n - 2) then [Link(ch.nodes[n - 2], ch.nodes[n - 1])] else [])
  }

  function AllLinks(cfg: CBConfig, m: nat): seq<Link>
    requires m <= |cfg.chains|
  {
    if m == 0 then [] else AllLinks(cfg, m - 1) + LinksUpTo(cfg, cfg.chains[m - 1], |cfg.chains[m - 1].nodes|)
  }

  function Links(cfg: CBConfig): seq<Link> { AllLinks(cfg, |cfg.chains|) }

  function Tails(ls: seq<Link>): seq<string> { seq(|ls|, k requires 0 <= k < |ls| => ls[k].tail) }
  function Heads(ls: seq<Link>): seq<string> { seq(|ls|, k requires 0 <= k < |ls| => ls[k].head) }

  ghost predicate Distinct(ns: seq<string>) {
    forall j, k :: 0 <= j < k < |ns| ==> ns[j] != ns[k]
  }

  /** No two links leave the same node, no two enter the same node. */
  ghost predicate DistinctEnds(ls: seq<Link>) {
    Distinct(Tails(ls)) && Distinct(Heads(ls))
  }

  /** The map holds, for the k-th name, the end of link number base + k, and nothing else. */
  ghost predicate EndsFor(ns: seq<string>, base: nat, first: bool, m: map<string, LinkEnd>) {
    && (forall k :: 0 <= k < |ns| ==> ns[k] in m && m[ns[k]] == LinkEnd(base + k, first))
    && (forall n :: n in m ==> n in ns)
  }

  ghost predicate PlanFor(ls: seq<Link>, base: nat, plan: Plan) {
    EndsFor(Tails(ls), base, true, plan.egress) && EndsFor(Heads(ls), base, false, plan.ingress)
  }

  function WithLink(plan: Plan, l: Link, id: nat): Plan {
    Plan(plan.ingress[l.head := LinkEnd(id, false)], plan.egress[l.tail := LinkEnd(id, true)])
  }

  lemma EndsStep(ns: seq<string>, base: nat, first: bool, m: map<string, LinkEnd>, n: string)
    requires Distinct(ns) && EndsFor(ns, base, first, m)
    ensures n in m <==> !Distinct(ns + [n])
    ensures n !in m ==> EndsFor(ns + [n], base, first, m[n := LinkEnd(base + |ns|, first)])
  {
    var ns' := ns + [n];
    if n in m {
      var k :| 0 <= k < |ns| && ns[k] == n;
      assert ns'[k] == ns'[|ns|];
    }
  }

  lemma PlanStep(ls: seq<Link>, base: nat, plan: Plan, l: Link)
    requires DistinctEnds(ls) && PlanFor(ls, base, plan)
    ensures l.head in plan.ingress || l.tail in plan.egress <==> !DistinctEnds(ls + [l])
    ensures DistinctEnds(ls + [l]) ==> PlanFor(ls + [l], base, WithLink(plan, l, base + |ls|))
  {
    hide Distinct, EndsFor;
    EndsStep(Tails(ls), base, true, plan.egress, l.tail);
    EndsStep(Heads(ls), base, false, plan.ingress, l.head);
    assert Tails(ls + [l]) == Tails(ls) + [l.tail] && Heads(ls + [l]) == Heads(ls) + [l.head];
  }

  lemma DistinctPrefix(ls: seq<Link>, more: seq<Link>)
    requires DistinctEnds(ls + more)
    ensures DistinctEnds(ls)
  {
    var all := ls + more;
    assert forall k :: 0 <= k < |ls| ==> Tails(all)[k] == Tails(ls)[k] && Heads(all)[k] == Heads(ls)[k];
  }

  /* ----- the order of the planning loops ----- */

  lemma {:induction false} LinksPrefix(cfg: CBConfig, ch: Chain, m: nat, n: nat)
    requires m <= n <= |ch.nodes|
    ensures LinksUpTo(cfg, ch, m) <= LinksUpTo(cfg, ch, n)
  {
    if m < n { LinksPrefix(cfg, ch, m, n - 1); }
  }

  lemma {:induction false} AllLinksPrefix(cfg: CBConfig, m: nat, n: nat)
    requires m <= n <= |cfg.chains|
    ensures AllLinks(cfg, m) <= AllLinks(cfg, n)
  {
    hide LinksUpTo;
    if m < n {
      AllLinksPrefix(cfg, m, n - 1);
      assert AllLinks(cfg, n - 1) <= AllLinks(cfg, n);
    }
  }

  /** The links found before the step from position i - 1 to position i of chain c. */
  function LinksBefore(cfg: CBConfig, c: nat, i: nat): seq<Link>
    requires c < |cfg.chains| && i <= |cfg.chains[c].nodes|
  {
    AllLinks(cfg, c) + LinksUpTo(cfg, cfg.chains[c], i)
  }

  /** The step to position i of chain c looks into an instance that is not there. */
  ghost predicate NilAt(cfg: CBConfig, c: int, i: int) {
    && IsPosition(cfg, c, i) && IsPosition(cfg, c, i - 1)
    && (!Declared(cfg, NodeAt(cfg, c, i - 1))
        || (Local(cfg, NodeAt(cfg, c, i - 1)) && !Declared(cfg, NodeAt(cfg, c, i))))
  }

  /** Only a node that is not declared makes a step die: the one it comes from always, the one it leads to
      if the other is local. */
  lemma NilCases(cfg: CBConfig, c: int, i: int)
    requires IsPosition(cfg, c, i) && IsPosition(cfg, c, i - 1)
    ensures var from, to := Find(cfg.functions, NodeAt(cfg, c, i - 1)), Find(cfg.functions, NodeAt(cfg, c, i));
            && (from.None? ==> NilAt(cfg, c, i))
            && (from.Some? && !from.value.remote && to.None? ==> NilAt(cfg, c, i))
            && (from.Some? && (from.value.remote || to.Some?) ==> !NilAt(cfg, c, i))
  {
    hide Find;
  }

  /** It does so while the links before it are still in order. */
  ghost predicate DiesAt(cfg: CBConfig, c: int, i: int) {
    NilAt(cfg, c, i) && DistinctEnds(LinksBefore(cfg, c, i))
  }

  lemma LaterLinks(cfg: CBConfig, c: nat, i: nat, c': nat, i': nat)
    requires c < |cfg.chains| && i <= |cfg.chains[c].nodes| && c' < |cfg.chains| && i' <= |cfg.chains[c'].nodes|
    requires c < c' || (c == c' && i <= i')
    ensures LinksBefore(cfg, c, i) <= LinksBefore(cfg, c', i')
  {
    if c < c' {
      LinksPrefix(cfg, cfg.chains[c], i, |cfg.chains[c].nodes|);
      AllLinksPrefix(cfg, c + 1, c');
    } else {
      LinksPrefix(cfg, cfg.chains[c], i, i');
    }
  }

  lemma NotDistinctLater(ls: seq<Link>, later: seq<Link>)
    requires ls <= later && !DistinctEnds(ls)
    ensures !DistinctEnds(later)
  {
    hide DistinctEnds;
    if DistinctEnds(later) {
      assert later == ls + later[|ls|..];
      DistinctPrefix(ls, later[|ls|..]);
    }
  }

  /** A shared node is found at the step to position i of chain c, and no nil instance before. */
  ghost predicate SharesAt(cfg: CBConfig, c: int, i: int) {
    && IsPosition(cfg, c, i) && !DistinctEnds(LinksBefore(cfg, c, i + 1))
    && (forall i' :: i' <= i ==> !NilAt(cfg, c, i'))
  }

  /** The inner planning loop. `dlgid` is the global link counter. */
  method PlanChain(cfg: CBConfig, c: nat, ghost base: nat, plan: Plan, dlgid: nat)
    returns (out: Planning, dlgid': nat)
    requires c < |cfg.chains| && |cfg.chains[c].nodes| >= 2
    requires DistinctEnds(AllLinks(cfg, c)) && PlanFor(AllLinks(cfg, c), base, plan)
    requires dlgid == base + |AllLinks(cfg, c)|
    ensures out.NilInstance? ==> exists i :: DiesAt(cfg, c, i)
    ensures out.SharedNode? ==> exists i :: SharesAt(cfg, c, i)
    ensures out.Planned? ==>
              && (forall i :: !NilAt(cfg, c, i)) && DistinctEnds(AllLinks(cfg, c + 1))
              && PlanFor(AllLinks(cfg, c + 1), base, out.plan) && dlgid' == base + |AllLinks(cfg, c + 1)|
  {
    hide DistinctEnds, PlanFor, AllLinks, Find;
    var ch := cfg.chains[c];
    var p := plan;
    dlgid' := dlgid;
    assert LinksBefore(cfg, c, 1) == AllLinks(cfg, c);
    var i := 1;
    while i < |ch.nodes|
      invariant 1 <= i <= |ch.nodes|
      invariant forall i' :: i' < i ==> !NilAt(cfg, c, i')
      invariant DistinctEnds(LinksBefore(cfg, c, i)) && PlanFor(LinksBefore(cfg, c, i), base, p)
      invariant dlgid' == base + |LinksBefore(cfg, c, i)|
    {
      ghost var ls := LinksBefore(cfg, c, i);
      var n1, n2 := Find(cfg.functions, ch.nodes[i - 1]), Find(cfg.functions, ch.nodes[i]);
      if n1 == None || (!n1.value.remote && n2 == None) {
        assert DiesAt(cfg, c, i);
        return NilInstance, dlgid';
      }
      assert !NilAt(cfg, c, i);
      if !n1.value.remote && !n2.value.remote {
        FindSound(cfg.functions, ch.nodes[i - 1]);
        FindSound(cfg.functions, ch.nodes[i]);
        ghost var l := Link(ch.nodes[i - 1], ch.nodes[i]);
        assert LinksBefore(cfg, c, i + 1) == ls + [l];
        PlanStep(ls, base, p, l);
        if n2.value.tag in p.ingress || n1.value.tag in p.egress {
          assert SharesAt(cfg, c, i);
          return SharedNode, dlgid';
        }
        p := Plan(p.ingress[n2.value.tag := LinkEnd(dlgid', false)], p.egress[n1.value.tag := LinkEnd(dlgid', true)]);
        dlgid' := dlgid' + 1;
      } else {
        assert LinksBefore(cfg, c, i + 1) == ls;
      }
      i := i + 1;
    }
    AllOfChain(cfg, c);
    out := Planned(p);
  }

  lemma AllOfChain(cfg: CBConfig, c: nat)
    requires c < |cfg.chains|
    ensures LinksBefore(cfg, c, |cfg.chains[c].nodes|) == AllLinks(cfg, c + 1)
  {
  }

  /** Where a shared node is found first, all links together are not in order, and no later step dies. */
  lemma SharedForGood(cfg: CBConfig, c: int, i: int)
    requires SharesAt(cfg, c, i) && (forall c', i' :: 0 <= c' < c ==> !NilAt(cfg, c', i'))
    ensures !DistinctEnds(Links(cfg))
    ensures forall c', i' :: !DiesAt(cfg, c', i')
  {
    hide DistinctEnds, LinksBefore, AllLinks;
    LaterLinks(cfg, c, i + 1, c, |cfg.chains[c].nodes|);
    AllOfChain(cfg, c);
    AllLinksPrefix(cfg, c + 1, |cfg.chains|);
    NotDistinctLater(LinksBefore(cfg, c, i + 1), Links(cfg));
    forall c', i' | NilAt(cfg, c', i') ensures !DistinctEnds(LinksBefore(cfg, c', i')) {
      LaterLinks(cfg, c, i + 1, c', i');
      NotDistinctLater(LinksBefore(cfg, c, i + 1), LinksBefore(cfg, c', i'));
    }
  }

  /** The planning loops of `main`: they die exactly at a nil instance that comes before any shared node, and
      accept exactly where there is no nil instance and no node at the same end of two links; an accepted
      plan numbers the links in order. */
  method PlanLinks(cfg: CBConfig, base: nat) returns (out: Planning)
    ensures out.NilInstance? <==> exists c, i :: DiesAt(cfg, c, i)
    ensures out.Planned? <==> (forall c, i :: !NilAt(cfg, c, i)) && DistinctEnds(Links(cfg))
    ensures out.Planned? ==> PlanFor(Links(cfg), base, out.plan)
  {
    hide NilAt, DistinctEnds, PlanFor, SharesAt;
    var plan, dlgid := Plan(map[], map[]), base;
    assert DistinctEnds([]) && PlanFor([], base, plan) by { NoLinks(base); }
    for c := 0 to |cfg.chains|
      invariant forall c', i :: 0 <= c' < c ==> !NilAt(cfg, c', i)
      invariant DistinctEnds(AllLinks(cfg, c)) && PlanFor(AllLinks(cfg, c), base, plan)
      invariant dlgid == base + |AllLinks(cfg, c)|
    {
      var clen := |cfg.chains[c].nodes|;
      if clen >= 2 {
        out, dlgid := PlanChain(cfg, c, base, plan, dlgid);
        if out.SharedNode? {
          ghost var i :| SharesAt(cfg, c, i);
          SharedForGood(cfg, c, i);
          return;
        }
        if out.NilInstance? { return; }
        plan := out.plan;
      } else {
        assert AllLinks(cfg, c + 1) == AllLinks(cfg, c);
        forall i ensures !NilAt(cfg, c, i) { ShortChain(cfg, c, i); }
      }
    }
    forall c, i ensures !NilAt(cfg, c, i) { NoChain(cfg, c, i); }
    out := Planned(plan);
  }

  lemma NoLinks(base: nat)
    ensures DistinctEnds([]) && PlanFor([], base, Plan(map[], map[]))
  {
  }

  lemma ShortChain(cfg: CBConfig, c: int, i: int)
    requires 0 <= c < |cfg.chains| && |cfg.chains[c].nodes| < 2
    ensures !NilAt(cfg, c, i)
  {
  }

  lemma NoChain(cfg: CBConfig, c: int, i: int)
    ensures c < 0 || |cfg.chains| <= c ==> !NilAt(cfg, c, i)
  {
  }

  /* ----- the links, position by position ----- */

  lemma {:induction false} LinksUpToMember(cfg: CBConfig, ch: Chain, n: nat, l: Link)
    requires n <= |ch.nodes|
    ensures l in LinksUpTo(cfg, ch, n) <==>
            exists i :: 0 <= i && i + 1 < n && DirectOut(cfg, ch, i) && l == Link(ch.nodes[i], ch.nodes[i + 1])
  {
    hide DirectOut;
    if n > 1 {
      LinksUpToMember(cfg, ch, n - 1, l);
      if DirectOut(cfg, ch, n - 2) && l == Link(ch.nodes[n - 2], ch.nodes[n - 1]) {
        assert l in LinksUpTo(cfg, ch, n);
      }
    }
  }

  ghost predicate LinkFrom(cfg: CBConfig, l: Link, c: int, i: int) {
    IsPosition(cfg, c, i) && IsPosition(cfg, c, i + 1) && DirectOut(cfg, cfg.chains[c], i)
    && l == Link(NodeAt(cfg, c, i), NodeAt(cfg, c, i + 1))
  }

  lemma {:induction false} AllLinksMember(cfg: CBConfig, m: nat, l: Link)
    requires m <= |cfg.chains|
    ensures l in AllLinks(cfg, m) <==> exists c, i :: c < m && LinkFrom(cfg, l, c, i)
  {
    hide DirectOut;
    if m > 0 {
      AllLinksMember(cfg, m - 1, l);
      var ch := cfg.chains[m - 1];
      LinksUpToMember(cfg, ch, |ch.nodes|, l);
      if l in LinksUpTo(cfg, ch, |ch.nodes|) {
        var i :| 0 <= i && i + 1 < |ch.nodes| && DirectOut(cfg, ch, i) && l == Link(ch.nodes[i], ch.nodes[i + 1]);
        assert LinkFrom(cfg, l, m - 1, i);
      }
    }
  }

  lemma LinksMember(cfg: CBConfig, l: Link)
    ensures l in Links(cfg) <==> exists c, i :: LinkFrom(cfg, l, c, i)
  {
    AllLinksMember(cfg, |cfg.chains|, l);
  }
}
