/** The rule compiler: `InstallConfiguration` turns the chains into forwarding and proxy rules per node. */
module Manager {
  import opened Bytes
  import opened Frames
  import opened Config

  /** Connected agents and the ingress address each reported. */
  type Agents = map<string, Mac>

  datatype FwdRule = FwdRule(key: u32, flags: byte, address: Mac)
  datatype ProxyRule = ProxyRule(key: FiveTuple, val: u32)
  datatype RulesConfig = RulesConfig(fwd: seq<FwdRule>, proxy: seq<ProxyRule>)

  /** A run either succeeds, reports a missing agent, or dies on a nil instance or an unparsable flow. */
  datatype Outcome<T> = Ok(value: T) | Unreachable | Panic

  /* ----- service path headers ----- */

  /** `spi | (254 - uint32(i))` in 32-bit arithmetic. */
  function SphAt(id: u32, i: nat): u32 {
    Or32((id * 0x100) % 0x1_0000_0000, (254 - i) % 0x1_0000_0000)
  }

  lemma ShiftedId(id: u32)
    ensures (id * 0x100) % 0x1_0000_0000 == 0x100 * (id % 0x100_0000)
  {
    var q, p := id / 0x100_0000, id % 0x100_0000;
    assert id * 0x100 == 0x1_0000_0000 * q + 0x100 * p;
  }

  /** Up to position 254 the path id and the service index lie side by side. */
  lemma SphFields(id: u32, i: nat)
    requires i <= 254
    ensures SphAt(id, i) == 0x100 * (id % 0x100_0000) + (254 - i)
  {
    hide BitOr;
    ShiftedId(id);
    OrAppendsByte(id % 0x100_0000, 254 - i);
  }

  /** Keys of two chain positions coincide exactly where the low 24 id bits and the positions do. */
  lemma SphInjective(id: u32, i: nat, id': u32, i': nat)
    requires i <= 254 && i' <= 254
    ensures SphAt(id, i) == SphAt(id', i') <==> id % 0x100_0000 == id' % 0x100_0000 && i == i'
  {
    hide SphAt;
    SphFields(id, i);
    SphFields(id', i');
  }

  /** At any position: the upper 24 bits are those of the id or those of the wrapped index. */
  lemma SphParts(id: u32, i: nat)
    ensures var y := (254 - i) % 0x1_0000_0000;
            SphAt(id, i) == 0x100 * BitOr(id % 0x100_0000, y / 0x100) + y % 0x100
  {
    hide BitOr;
    ShiftedId(id);
    OrAboveByte(id % 0x100_0000, (254 - i) % 0x1_0000_0000);
  }

  /** At positions 255 to 510 the wrapped index wipes out the path id: all chains share those keys. */
  lemma SphBeyondIndexSpace(id: u32, i: nat)
    requires 255 <= i < 511
    ensures SphAt(id, i) == 0x1_0000_0000 - (i - 254)
  {
    hide BitOr;
    ShiftedId(id);
    OrWipesUpperBytes(id % 0x100_0000, 510 - i);
    assert (254 - i) % 0x1_0000_0000 == 0xFFFF_FF00 + (510 - i);
  }

  /** No two ids of 24 bits give the same key at position i. */
  ghost predicate KeepsIdsApart(i: nat) {
    forall id: u32, id': u32 :: id < 0x100_0000 && id' < 0x100_0000 && SphAt(id, i) == SphAt(id', i) ==> id == id'
  }

  /** That is so exactly where the wrapped index fits a byte: up to position 254, and again only where the
      32-bit position itself wraps. */
  lemma IdsApartExactly(i: nat)
    ensures KeepsIdsApart(i) <==> (254 - i) % 0x1_0000_0000 < 0x100
    ensures i < 0xFFFF_FFFF ==> (KeepsIdsApart(i) <==> i <= 254)
  {
    hide SphAt, BitOr;
    var y := (254 - i) % 0x1_0000_0000;
    if y < 0x100 {
      forall id: u32, id': u32 | id < 0x100_0000 && id' < 0x100_0000 && SphAt(id, i) == SphAt(id', i)
        ensures id == id'
      {
        SphParts(id, i);
        SphParts(id', i);
        BitOrZero(id);
        BitOrZero(id');
      }
    } else {
      SameKey(i, y / 0x100);
    }
  }

  /** The id that has just the one-bits of the wrapped index shares its key with id 0. */
  lemma SameKey(i: nat, id: u32)
    requires id == (254 - i) % 0x1_0000_0000 / 0x100
    ensures id < 0x100_0000 && SphAt(id, i) == SphAt(0, i)
  {
    hide SphAt, BitOr;
    SphParts(id, i);
    SphParts(0, i);
    BitOrSelf(id);
    BitOrZeroLeft(id);
  }

  /** No key of a 24-bit id and one of the first n positions occurs twice. */
  ghost predicate KeysDiffer(n: nat) {
    forall id: u32, i: nat, id': u32, i': nat ::
      id < 0x100_0000 && id' < 0x100_0000 && i < n && i' < n && SphAt(id, i) == SphAt(id', i') ==> id == id' && i == i'
  }

  /** Keys name id and position exactly while chains have at most 255 nodes. */
  lemma KeysDifferExactly(n: nat)
    ensures KeysDiffer(n) <==> n <= 255
  {
    hide SphAt;
    if n <= 255 {
      forall id: u32, i: nat, id': u32, i': nat
        | id < 0x100_0000 && id' < 0x100_0000 && i < n && i' < n && SphAt(id, i) == SphAt(id', i')
        ensures id == id' && i == i'
      {
        SphInjective(id, i, id', i');
      }
    } else {
      SameKey(255, 0xFF_FFFF);
    }
  }

  /* ----- the rules of a chain position ----- */

  predicate Last(ch: Chain, i: nat) { i == |ch.nodes| - 1 }

  /** The planned link between positions i and i + 1 is a direct one. */
  predicate DirectOut(cfg: CBConfig, ch: Chain, i: nat) {
    i + 1 < |ch.nodes| && Local(cfg, ch.nodes[i]) && Local(cfg, ch.nodes[i + 1])
  }

  predicate DirectIn(cfg: CBConfig, ch: Chain, i: nat) {
    0 < i && DirectOut(cfg, ch, i - 1)
  }

  /** The forwarding rule a position gives rise to, with the node it is for. */
  function FwdAt(cfg: CBConfig, ag: Agents, ch: Chain, i: nat): seq<(string, FwdRule)>
    requires i < |ch.nodes|
  {
    if DirectOut(cfg, ch, i) then []
    else if Last(ch, i) then [(ch.nodes[i], FwdRule(SphAt(ch.id, i), 1, [0, 0, 0, 0, 0, 0]))]
    else [(ch.nodes[i], FwdRule(SphAt(ch.id, i), 0, AddressOf(ag, ch.nodes[i + 1])))]
  }

  /** A missing agent has the zero address. */
  function AddressOf(ag: Agents, name: string): Mac {
    if name in ag then ag[name] else [0, 0, 0, 0, 0, 0]
  }

  /** The proxy rules of a position: one per listed flow, with the index the skipped decap would have stored. */
  function ProxyAt(cfg: CBConfig, ch: Chain, i: nat, flows: seq<FlowText>): seq<(string, ProxyRule)>
    requires i < |ch.nodes|
  {
    if flows == [] || !NeedsProxy(cfg, ch, i) then []
    else
      var rest := ProxyAt(cfg, ch, i, flows[..|flows| - 1]);
      match Parse(flows[|flows| - 1])
      case None => rest
      case Some(t) => rest + [(ch.nodes[i], ProxyRule(t, (SphAt(ch.id, i) + 1) % 0x1_0000_0000))]
  }

  function ProxiesAt(cfg: CBConfig, ch: Chain, i: nat): seq<(string, ProxyRule)>
    requires i < |ch.nodes|
  {
    ProxyAt(cfg, ch, i, ch.flows)
  }

  predicate NeedsProxy(cfg: CBConfig, ch: Chain, i: nat) {
    DirectIn(cfg, ch, i) && !DirectOut(cfg, ch, i)
  }

  /** All rules of the first n positions of a chain, in generation order. */
  function FwdUpTo(cfg: CBConfig, ag: Agents, ch: Chain, n: nat): seq<(string, FwdRule)>
    requires n <= |ch.nodes|
  {
    if n == 0 then [] else FwdUpTo(cfg, ag, ch, n - 1) + FwdAt(cfg, ag, ch, n - 1)
  }

  function ProxyUpTo(cfg: CBConfig, ch: Chain, n: nat): seq<(string, ProxyRule)>
    requires n <= |ch.nodes|
  {
    if n == 0 then [] else ProxyUpTo(cfg, ch, n - 1) + ProxiesAt(cfg, ch, n - 1)
  }

  function AllFwd(cfg: CBConfig, ag: Agents, c: nat): seq<(string, FwdRule)>
    requires c <= |cfg.chains|
  {
    if c == 0 then []
    else AllFwd(cfg, ag, c - 1) + FwdUpTo(cfg, ag, cfg.chains[c - 1], |cfg.chains[c - 1].nodes|)
  }

  function AllProxy(cfg: CBConfig, c: nat): seq<(string, ProxyRule)>
    requires c <= |cfg.chains|
  {
    if c == 0 then []
    else AllProxy(cfg, c - 1) + ProxyUpTo(cfg, cfg.chains[c - 1], |cfg.chains[c - 1].nodes|)
  }

  /** The rules in a list that are meant for one node. */
  function Pick<R>(n: string, s: seq<(string, R)>): seq<R> {
    if s == [] then []
    else Pick(n, s[..|s| - 1]) + (if s[|s| - 1].0 == n then [s[|s| - 1].1] else [])
  }

  lemma {:induction false} PickMember<R>(n: string, s: seq<(string, R)>, r: R)
    ensures r in Pick(n, s) <==> (n, r) in s
  {
    if s != [] {
      var rest := s[..|s| - 1];
      PickMember(n, rest, r);
      assert s == rest + [s[|s| - 1]];
    }
  }

  /** Picking keeps multiplicities: every copy of a rule goes to its node, and only there. */
  lemma PickMultiplicity<R>(n: string, s: seq<(string, R)>, r: R)
    ensures multiset(Pick(n, s))[r] == multiset(s)[(n, r)]
  {
    PickTimes(n, s, r);
  }

  ghost function Times<T>(s: seq<T>, y: T): nat { multiset(s)[y] }

  lemma {:induction false} PickTimes<R>(n: string, s: seq<(string, R)>, r: R)
    ensures Times(Pick(n, s), r) == Times(s, (n, r))
  {
    hide Times;
    if s == [] {
      TimesOfNone(r);
      TimesOfNone((n, r));
    } else {
      var rest, x := s[..|s| - 1], s[|s| - 1];
      PickTimes(n, rest, r);
      assert s == rest + [x];
      OneMore(rest, x, (n, r));
      OneMore(Pick(n, rest), x.1, r);
      assert Pick(n, s) == if x.0 == n then Pick(n, rest) + [x.1] else Pick(n, rest);
      assert x == (x.0, x.1);
    }
  }

  lemma TimesOfNone<T>(y: T)
    ensures Times([], y) == 0
  {
  }

  lemma OneMore<T>(s: seq<T>, x: T, y: T)
    ensures Times(s + [x], y) == Times(s, y) + (if x == y then 1 else 0)
  {
  }

  /* ----- when generation dies ----- */

  /** Chains of two or more need every instance; flows must parse where proxy rules are made. */
  ghost predicate ChainPanics(cfg: CBConfig, ch: Chain) {
    || (|ch.nodes| >= 2 && exists i :: 0 <= i < |ch.nodes| && !Declared(cfg, ch.nodes[i]))
    || ((exists i :: 0 <= i < |ch.nodes| && NeedsProxy(cfg, ch, i)) && exists fl :: fl in ch.flows && Parse(fl).None?)
  }

  /** Generation dies over a node of a longer chain that is not declared, and over a flow that does not parse
      where a run of direct links ends; over nothing else. */
  lemma PanicCases(cfg: CBConfig, ch: Chain, i: nat)
    requires i < |ch.nodes|
    ensures |ch.nodes| >= 2 && Find(cfg.functions, ch.nodes[i]).None? ==> ChainPanics(cfg, ch)
    ensures NeedsProxy(cfg, ch, i) && (exists fl :: fl in ch.flows && Parse(fl).None?) ==> ChainPanics(cfg, ch)
    ensures (|ch.nodes| == 1 || (forall n :: n in ch.nodes ==> Find(cfg.functions, n).Some?))
            && (forall fl :: fl in ch.flows ==> Parse(fl).Some?)
            ==> !ChainPanics(cfg, ch)
  {
    hide NeedsProxy, Parse, Find;
    forall k | 0 <= k < |ch.nodes| ensures ch.nodes[k] in ch.nodes {}
  }

  predicate AllConnected(cfg: CBConfig, ag: Agents) {
    forall i :: 0 <= i < |cfg.functions| ==> cfg.functions[i].tag in ag
  }

  /* ----- the compiler ----- */

  function Get<R>(m: map<string, seq<R>>, n: string): seq<R> {
    if n in m then m[n] else []
  }

  /** The per-node lists in `m` are exactly the lists picked from `s`; no list is empty. */
  ghost predicate Groups<R(!new)>(m: map<string, seq<R>>, s: seq<(string, R)>) {
    && (forall n :: Get(m, n) == Pick(n, s))
    && (forall n :: n in m ==> m[n] != [])
  }

  /** `frules[node] = append(frules[node], fr)`. */
  function Append<R>(m: map<string, seq<R>>, n: string, r: R): map<string, seq<R>> {
    m[n := Get(m, n) + [r]]
  }

  lemma AppendGroups<R(!new)>(m: map<string, seq<R>>, s: seq<(string, R)>, n: string, r: R)
    requires Groups(m, s)
    ensures Groups(Append(m, n, r), s + [(n, r)])
  {
    var t := s + [(n, r)];
    assert t[..|t| - 1] == s;
    forall x ensures Get(Append(m, n, r), x) == Pick(x, t) {
      assert Get(m, x) == Pick(x, s);
    }
  }

  /** The innermost loop: one proxy rule per flow. Fails where a flow does not parse. */
  method AddProxyRules(cfg: CBConfig, ch: Chain, i: nat, sph: u32, ghost before: seq<(string, ProxyRule)>,
                       prules: map<string, seq<ProxyRule>>)
    returns (ok: bool, result: map<string, seq<ProxyRule>>)
    requires i < |ch.nodes| && sph == SphAt(ch.id, i) && NeedsProxy(cfg, ch, i) && Groups(prules, before)
    ensures ok <==> forall fl :: fl in ch.flows ==> Parse(fl).Some?
    ensures ok ==> Groups(result, before + ProxiesAt(cfg, ch, i))
  {
    hide SphAt, Groups, Append;
    result := prules;
    assert before + ProxyAt(cfg, ch, i, []) == before;
    for j := 0 to |ch.flows|
      invariant forall fl :: fl in ch.flows[..j] ==> Parse(fl).Some?
      invariant Groups(result, before + ProxyAt(cfg, ch, i, ch.flows[..j]))
    {
      ghost var fs := ch.flows[..j + 1];
      assert fs[..j] == ch.flows[..j] && fs[j] == ch.flows[j];
      var tuple := Parse(ch.flows[j]);
      if tuple == None { return false, result; }
      var pr := ProxyRule(tuple.value, (sph + 1) % 0x1_0000_0000);
      AppendGroups(result, before + ProxyAt(cfg, ch, i, ch.flows[..j]), ch.nodes[i], pr);
      result := Append(result, ch.nodes[i], pr);
      assert before + ProxyAt(cfg, ch, i, fs) == before + ProxyAt(cfg, ch, i, ch.flows[..j]) + [(ch.nodes[i], pr)];
    }
    assert ch.flows[..|ch.flows|] == ch.flows;
    ok := true;
  }

  /** The forwarding half of one iteration of the position loop: None where an instance is nil and looked into. */
  method AddFwdRule(cfg: CBConfig, ag: Agents, ch: Chain, i: nat, sph: u32, ghost before: seq<(string, FwdRule)>,
                    frules: map<string, seq<FwdRule>>)
    returns (ok: bool, result: map<string, seq<FwdRule>>)
    requires i < |ch.nodes| && sph == SphAt(ch.id, i) && Groups(frules, before)
    ensures ok <==> Last(ch, i) || (Declared(cfg, ch.nodes[i]) && Declared(cfg, ch.nodes[i + 1]))
    ensures ok ==> Groups(result, before + FwdAt(cfg, ag, ch, i))
  {
    hide SphAt, Groups, Append;
    result := frules;
    var curr := Find(cfg.functions, ch.nodes[i]);
    var next: Option<Instance>, flags: byte, addressNext: Mac := None, 1, [0, 0, 0, 0, 0, 0];
    if i != |ch.nodes| - 1 {
      flags := 0;
      next := Find(cfg.functions, ch.nodes[i + 1]);
      if next == None { return false, result; }
      FindSound(cfg.functions, ch.nodes[i + 1]);
      addressNext := AddressOf(ag, next.value.tag);
      if curr == None { return false, result; }
    }
    if next == None || curr.value.remote || next.value.remote {
      var fr := FwdRule(sph, flags, addressNext);
      AppendGroups(result, before, ch.nodes[i], fr);
      result := Append(result, ch.nodes[i], fr);
    } else {
      assert before + FwdAt(cfg, ag, ch, i) == before;
    }
    ok := true;
  }

  /** The position loop over one chain. */
  method CompileChain(cfg: CBConfig, ag: Agents, ch: Chain,
                      ghost fbefore: seq<(string, FwdRule)>, ghost pbefore: seq<(string, ProxyRule)>,
                      frules: map<string, seq<FwdRule>>, prules: map<string, seq<ProxyRule>>)
    returns (ok: bool, frules': map<string, seq<FwdRule>>, prules': map<string, seq<ProxyRule>>)
    requires Groups(frules, fbefore) && Groups(prules, pbefore)
    ensures ok <==> !ChainPanics(cfg, ch)
    ensures ok ==> Groups(frules', fbefore + FwdUpTo(cfg, ag, ch, |ch.nodes|))
    ensures ok ==> Groups(prules', pbefore + ProxyUpTo(cfg, ch, |ch.nodes|))
  {
    hide SphAt, Groups, FwdAt, ProxiesAt;
    frules', prules' := frules, prules;
    assert fbefore + FwdUpTo(cfg, ag, ch, 0) == fbefore;
    assert pbefore + ProxyUpTo(cfg, ch, 0) == pbefore;
    var i := 0;
    while i < |ch.nodes|
      invariant i <= |ch.nodes|
      invariant forall j :: 0 <= j < i && !Last(ch, j) ==> Declared(cfg, ch.nodes[j]) && Declared(cfg, ch.nodes[j + 1])
      invariant (exists j :: 0 <= j < i && NeedsProxy(cfg, ch, j)) ==> forall fl :: fl in ch.flows ==> Parse(fl).Some?
      invariant Groups(frules', fbefore + FwdUpTo(cfg, ag, ch, i))
      invariant Groups(prules', pbefore + ProxyUpTo(cfg, ch, i))
    {
      var sph := SphAt(ch.id, i);
      ok, frules' := AddFwdRule(cfg, ag, ch, i, sph, fbefore + FwdUpTo(cfg, ag, ch, i), frules');
      if !ok {
        assert !Declared(cfg, ch.nodes[i]) || !Declared(cfg, ch.nodes[i + 1]);
        return;
      }
      assert fbefore + FwdUpTo(cfg, ag, ch, i) + FwdAt(cfg, ag, ch, i) == fbefore + FwdUpTo(cfg, ag, ch, i + 1);
      var curr := Find(cfg.functions, ch.nodes[i]);
      var needed := false;
      if i > 0 {
        assert !Last(ch, i - 1) && Declared(cfg, ch.nodes[i]);
        var prev := Find(cfg.functions, ch.nodes[i - 1]);
        if !prev.value.remote && !curr.value.remote {
          needed := i == |ch.nodes| - 1 || Find(cfg.functions, ch.nodes[i + 1]).value.remote;
        }
      }
      assert needed <==> NeedsProxy(cfg, ch, i);
      if needed {
        ok, prules' := AddProxyRules(cfg, ch, i, sph, pbefore + ProxyUpTo(cfg, ch, i), prules');
        if !ok { return; }
      } else {
        NoProxyHere(cfg, ch, i);
        assert pbefore + ProxyUpTo(cfg, ch, i) + [] == pbefore + ProxyUpTo(cfg, ch, i);
      }
      assert pbefore + ProxyUpTo(cfg, ch, i) + ProxiesAt(cfg, ch, i) == pbefore + ProxyUpTo(cfg, ch, i + 1);
      i := i + 1;
    }
    ok := true;
    forall j | 0 <= j < |ch.nodes| && |ch.nodes| >= 2 ensures Declared(cfg, ch.nodes[j]) {
      assert if Last(ch, j) then !Last(ch, j - 1) else true;
    }
  }

  lemma NoProxyHere(cfg: CBConfig, ch: Chain, i: nat)
    requires i < |ch.nodes| && !NeedsProxy(cfg, ch, i)
    ensures ProxiesAt(cfg, ch, i) == []
  {
  }

  /** What a node receives: its forwarding and its proxy rules, in generation order. */
  function RulesOf(cfg: CBConfig, ag: Agents, n: string): RulesConfig {
    RulesConfig(Pick(n, AllFwd(cfg, ag, |cfg.chains|)), Pick(n, AllProxy(cfg, |cfg.chains|)))
  }

  method InstallConfiguration(cfg: CBConfig, ag: Agents) returns (out: Outcome<map<string, RulesConfig>>)
    ensures out.Unreachable? <==> !AllConnected(cfg, ag)
    ensures out.Panic? <==> AllConnected(cfg, ag) && exists ch :: ch in cfg.chains && ChainPanics(cfg, ch)
    ensures out.Ok? ==> forall n :: n in out.value <==> RulesOf(cfg, ag, n).fwd != []
    ensures out.Ok? ==> forall n :: n in out.value ==> out.value[n] == RulesOf(cfg, ag, n)
  {
    hide ChainPanics, FwdUpTo, ProxyUpTo, Groups, AllFwd, AllProxy, Pick;
    for i := 0 to |cfg.functions|
      invariant forall j :: 0 <= j < i ==> cfg.functions[j].tag in ag
    {
      if cfg.functions[i].tag !in ag { return Unreachable; }
    }
    var frules, prules := map[], map[];
    NoRulesYet(cfg, ag);
    for c := 0 to |cfg.chains|
      invariant forall ch :: ch in cfg.chains[..c] ==> !ChainPanics(cfg, ch)
      invariant Groups(frules, AllFwd(cfg, ag, c)) && Groups(prules, AllProxy(cfg, c))
    {
      var ok;
      ok, frules, prules := CompileChain(cfg, ag, cfg.chains[c], AllFwd(cfg, ag, c), AllProxy(cfg, c), frules, prules);
      OneMoreChain(cfg, ag, c);
      if !ok { return Panic; }
    }
    var nodeCfgs := MergeRules(frules, prules);
    forall n
      ensures n in frules <==> RulesOf(cfg, ag, n).fwd != []
      ensures n in frules ==> RulesConfig(frules[n], Get(prules, n)) == RulesOf(cfg, ag, n)
    {
      GroupOf(frules, AllFwd(cfg, ag, |cfg.chains|), n);
      GroupOf(prules, AllProxy(cfg, |cfg.chains|), n);
    }
    out := Ok(nodeCfgs);
  }

  lemma NoRulesYet(cfg: CBConfig, ag: Agents)
    ensures Groups(map[], AllFwd(cfg, ag, 0)) && Groups(map[], AllProxy(cfg, 0))
  {
  }

  lemma OneMoreChain(cfg: CBConfig, ag: Agents, c: nat)
    requires c < |cfg.chains|
    ensures AllFwd(cfg, ag, c + 1) == AllFwd(cfg, ag, c) + FwdUpTo(cfg, ag, cfg.chains[c], |cfg.chains[c].nodes|)
    ensures AllProxy(cfg, c + 1) == AllProxy(cfg, c) + ProxyUpTo(cfg, cfg.chains[c], |cfg.chains[c].nodes|)
  {
  }

  lemma GroupOf<R(!new)>(m: map<string, seq<R>>, s: seq<(string, R)>, n: string)
    requires Groups(m, s)
    ensures Get(m, n) == Pick(n, s) && (n in m <==> Pick(n, s) != [])
  {
  }

  /** The final loop: it visits the nodes of `frules` only. */
  method MergeRules(frules: map<string, seq<FwdRule>>, prules: map<string, seq<ProxyRule>>)
    returns (nodeCfgs: map<string, RulesConfig>)
    ensures nodeCfgs.Keys == frules.Keys
    ensures forall n :: n in nodeCfgs ==> nodeCfgs[n] == RulesConfig(frules[n], Get(prules, n))
  {
    nodeCfgs := map[];
    var todo := frules.Keys;
    while todo != {}
      invariant todo <= frules.Keys && nodeCfgs.Keys == frules.Keys - todo
      invariant forall n :: n in nodeCfgs ==> nodeCfgs[n] == RulesConfig(frules[n], Get(prules, n))
    {
      var n :| n in todo;
      nodeCfgs := nodeCfgs[n := if n in prules then RulesConfig(frules[n], prules[n]) else RulesConfig(frules[n], [])];
      todo := todo - {n};
    }
  }
}
