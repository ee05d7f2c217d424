/** Which rules the compiler generates, position by position, and why none gets lost. */
module Rules {
  import opened Bytes
  import opened Frames
  import opened Config
  import opened Manager

  predicate IsPosition(cfg: CBConfig, c: int, i: int) {
    0 <= c < |cfg.chains| && 0 <= i < |cfg.chains[c].nodes|
  }

  function NodeAt(cfg: CBConfig, c: int, i: int): string
    requires IsPosition(cfg, c, i)
  {
    cfg.chains[c].nodes[i]
  }

  /* ----- the lists, as sets of positions ----- */

  lemma {:induction false} FwdUpToMember(cfg: CBConfig, ag: Agents, ch: Chain, n: nat, x: (string, FwdRule))
    requires n <= |ch.nodes|
    ensures x in FwdUpTo(cfg, ag, ch, n) <==> exists i :: 0 <= i < n && x in FwdAt(cfg, ag, ch, i)
  {
    hide FwdAt;
    if n > 0 { FwdUpToMember(cfg, ag, ch, n - 1, x); }
  }

  lemma {:induction false} ProxyUpToMember(cfg: CBConfig, ch: Chain, n: nat, x: (string, ProxyRule))
    requires n <= |ch.nodes|
    ensures x in ProxyUpTo(cfg, ch, n) <==> exists i :: 0 <= i < n && x in ProxiesAt(cfg, ch, i)
  {
    hide ProxiesAt;
    if n > 0 { ProxyUpToMember(cfg, ch, n - 1, x); }
  }

  lemma {:induction false} AllFwdMember(cfg: CBConfig, ag: Agents, m: nat, x: (string, FwdRule))
    requires m <= |cfg.chains|
    ensures x in AllFwd(cfg, ag, m) <==>
            exists c, i :: 0 <= c < m && IsPosition(cfg, c, i) && x in FwdAt(cfg, ag, cfg.chains[c], i)
  {
    hide FwdAt;
    if m > 0 {
      AllFwdMember(cfg, ag, m - 1, x);
      var ch := cfg.chains[m - 1];
      FwdUpToMember(cfg, ag, ch, |ch.nodes|, x);
      if x in FwdUpTo(cfg, ag, ch, |ch.nodes|) {
        var i :| 0 <= i < |ch.nodes| && x in FwdAt(cfg, ag, ch, i);
        assert IsPosition(cfg, m - 1, i);
      }
    }
  }

  lemma {:induction false} AllProxyMember(cfg: CBConfig, m: nat, x: (string, ProxyRule))
    requires m <= |cfg.chains|
    ensures x in AllProxy(cfg, m) <==>
            exists c, i :: 0 <= c < m && IsPosition(cfg, c, i) && x in ProxiesAt(cfg, cfg.chains[c], i)
  {
    hide ProxiesAt;
    if m > 0 {
      AllProxyMember(cfg, m - 1, x);
      var ch := cfg.chains[m - 1];
      ProxyUpToMember(cfg, ch, |ch.nodes|, x);
      if x in ProxyUpTo(cfg, ch, |ch.nodes|) {
        var i :| 0 <= i < |ch.nodes| && x in ProxiesAt(cfg, ch, i);
        assert IsPosition(cfg, m - 1, i);
      }
    }
  }

  lemma {:induction false} ProxyAtMember(cfg: CBConfig, ch: Chain, i: nat, flows: seq<FlowText>, x: (string, ProxyRule))
    requires i < |ch.nodes|
    ensures x in ProxyAt(cfg, ch, i, flows) <==>
            && NeedsProxy(cfg, ch, i)
            && x.0 == ch.nodes[i] && x.1.val == (SphAt(ch.id, i) + 1) % 0x1_0000_0000
            && exists fl :: fl in flows && Parse(fl) == Some(x.1.key)
  {
    hide SphAt, NeedsProxy;
    if flows != [] {
      var rest, fl := flows[..|flows| - 1], flows[|flows| - 1];
      ProxyAtMember(cfg, ch, i, rest, x);
      assert flows == rest + [fl];
    }
  }

  lemma FwdRulesByPosition(cfg: CBConfig, ag: Agents, n: string, r: FwdRule)
    ensures r in RulesOf(cfg, ag, n).fwd <==>
            exists c, i :: IsPosition(cfg, c, i) && (n, r) in FwdAt(cfg, ag, cfg.chains[c], i)
  {
    hide FwdAt;
    PickMember(n, AllFwd(cfg, ag, |cfg.chains|), r);
    AllFwdMember(cfg, ag, |cfg.chains|, (n, r));
  }

  lemma ProxyRulesByPosition(cfg: CBConfig, ag: Agents, n: string, r: ProxyRule)
    ensures r in RulesOf(cfg, ag, n).proxy <==>
            exists c, i :: IsPosition(cfg, c, i) && (n, r) in ProxiesAt(cfg, cfg.chains[c], i)
  {
    hide ProxiesAt;
    PickMember(n, AllProxy(cfg, |cfg.chains|), r);
    AllProxyMember(cfg, |cfg.chains|, (n, r));
  }

  /** The rule of a position without a direct link to the next node. */
  function RuleAt(cfg: CBConfig, ag: Agents, c: int, i: int): FwdRule
    requires IsPosition(cfg, c, i)
  {
    var ch := cfg.chains[c];
    if Last(ch, i) then FwdRule(SphAt(ch.id, i), 1, [0, 0, 0, 0, 0, 0])
    else FwdRule(SphAt(ch.id, i), 0, AddressOf(ag, ch.nodes[i + 1]))
  }

  ghost predicate FwdFrom(cfg: CBConfig, ag: Agents, n: string, r: FwdRule, c: int, i: int) {
    && IsPosition(cfg, c, i) && NodeAt(cfg, c, i) == n && !DirectOut(cfg, cfg.chains[c], i)
    && r == RuleAt(cfg, ag, c, i)
  }

  /** A node gets exactly the rules of its positions without a direct link to the next node. */
  lemma FwdRulesExact(cfg: CBConfig, ag: Agents, n: string, r: FwdRule)
    ensures r in RulesOf(cfg, ag, n).fwd <==> exists c, i :: FwdFrom(cfg, ag, n, r, c, i)
  {
    hide SphAt, RulesOf, DirectOut;
    FwdRulesByPosition(cfg, ag, n, r);
    if r in RulesOf(cfg, ag, n).fwd {
      var c, i :| IsPosition(cfg, c, i) && (n, r) in FwdAt(cfg, ag, cfg.chains[c], i);
      assert FwdFrom(cfg, ag, n, r, c, i);
    }
    if c, i :| FwdFrom(cfg, ag, n, r, c, i) {
      assert (n, r) in FwdAt(cfg, ag, cfg.chains[c], i);
    }
  }

  ghost predicate ProxyFrom(cfg: CBConfig, n: string, r: ProxyRule, c: int, i: int) {
    && IsPosition(cfg, c, i) && NodeAt(cfg, c, i) == n && NeedsProxy(cfg, cfg.chains[c], i)
    && r.val == (SphAt(cfg.chains[c].id, i) + 1) % 0x1_0000_0000
    && (exists fl :: fl in cfg.chains[c].flows && Parse(fl) == Some(r.key))
  }

  /** A node gets proxy rules exactly for the flows listed with a chain whose run of direct links it ends. */
  lemma ProxyRulesExact(cfg: CBConfig, ag: Agents, n: string, r: ProxyRule)
    ensures r in RulesOf(cfg, ag, n).proxy <==> exists c, i :: ProxyFrom(cfg, n, r, c, i)
  {
    hide SphAt, NeedsProxy, RulesOf, Parse;
    ProxyRulesByPosition(cfg, ag, n, r);
    if r in RulesOf(cfg, ag, n).proxy {
      var c, i :| IsPosition(cfg, c, i) && (n, r) in ProxiesAt(cfg, cfg.chains[c], i);
      ProxyAtMember(cfg, cfg.chains[c], i, cfg.chains[c].flows, (n, r));
      assert ProxyFrom(cfg, n, r, c, i);
    }
    if c, i :| ProxyFrom(cfg, n, r, c, i) {
      ProxyAtMember(cfg, cfg.chains[c], i, cfg.chains[c].flows, (n, r));
      assert (n, r) in ProxiesAt(cfg, cfg.chains[c], i);
    }
  }

  /** The merge visits only nodes with forwarding rules, and still drops no proxy rule: whoever has one has both. */
  lemma MergeLosesNothing(cfg: CBConfig, ag: Agents, n: string)
    requires RulesOf(cfg, ag, n).proxy != []
    ensures RulesOf(cfg, ag, n).fwd != []
  {
    hide SphAt, DirectOut, RulesOf, Parse;
    var r := RulesOf(cfg, ag, n).proxy[0];
    ProxyRulesExact(cfg, ag, n, r);
    var c, i :| ProxyFrom(cfg, n, r, c, i);
    FwdRulesExact(cfg, ag, n, RuleAt(cfg, ag, c, i));
    assert FwdFrom(cfg, ag, n, RuleAt(cfg, ag, c, i), c, i);
  }

  /** Conservation: a node is sent each rule generated for it as often as it was generated, and whoever has
      a rule of either kind is sent its rules. */
  lemma RulesDelivered(cfg: CBConfig, ag: Agents, n: string, f: FwdRule, p: ProxyRule)
    ensures multiset(RulesOf(cfg, ag, n).fwd)[f] == multiset(AllFwd(cfg, ag, |cfg.chains|))[(n, f)]
    ensures multiset(RulesOf(cfg, ag, n).proxy)[p] == multiset(AllProxy(cfg, |cfg.chains|))[(n, p)]
    ensures (n, f) in AllFwd(cfg, ag, |cfg.chains|) || (n, p) in AllProxy(cfg, |cfg.chains|) ==>
              RulesOf(cfg, ag, n).fwd != []
  {
    hide AllFwd, AllProxy, Pick;
    PickMultiplicity(n, AllFwd(cfg, ag, |cfg.chains|), f);
    PickMultiplicity(n, AllProxy(cfg, |cfg.chains|), p);
    PickMember(n, AllFwd(cfg, ag, |cfg.chains|), f);
    PickMember(n, AllProxy(cfg, |cfg.chains|), p);
    if (n, p) in AllProxy(cfg, |cfg.chains|) { MergeLosesNothing(cfg, ag, n); }
  }

  /** Once every declared node has an agent, each rule to a declared node has the address that agent reported;
      a missing agent has the zero address. */
  lemma AddressKnown(cfg: CBConfig, ag: Agents, c: int, i: int)
    requires AllConnected(cfg, ag) && IsPosition(cfg, c, i) && IsPosition(cfg, c, i + 1)
    ensures var next := NodeAt(cfg, c, i + 1);
            && RuleAt(cfg, ag, c, i).flags == 0
            && (next in ag ==> RuleAt(cfg, ag, c, i).address == ag[next])
            && (next !in ag ==> RuleAt(cfg, ag, c, i).address == [0, 0, 0, 0, 0, 0] && !Declared(cfg, next))
  {
    hide Find, SphAt;
    FindSound(cfg.functions, NodeAt(cfg, c, i + 1));
  }
}
