/** The maps of a node once the compiled rules are installed: which header finds which rule. */
module Tables {
  import opened Bytes
  import opened Frames
  import opened Stages
  import opened Config
  import opened Manager
  import opened Rules
  import opened Agent
  import opened Agreement

  /* ----- service path headers as bytes ----- */

  /** Path id and service index in network order. */
  function PathSph(id: u32, si: byte): Sph
    requires id < 0x100_0000
  {
    SphBytes(0x100 * id + si)
  }

  lemma PathSphDecrement(id: u32, si: byte)
    requires id < 0x100_0000
    ensures PathSph(id, si)[3] == si
    ensures si > 0 ==> Decrement(PathSph(id, si)) == PathSph(id, si - 1)
  {
    hide BE32, FromBE32;
    var s := PathSph(id, si);
    FromBE32RoundTrip(0x100 * id + si);
    LastByteIsLowByte(s);
    if si > 0 { DecrementLastByte(s); }
  }

  lemma SphBytesInjective(a: u32, b: u32)
    requires SphBytes(a) == SphBytes(b)
    ensures a == b
  {
    hide BE32, FromBE32;
    FromBE32RoundTrip(a);
    FromBE32RoundTrip(b);
  }

  /** What `parseChainsConfig` leaves unchecked: ids of 24 bits, distinct, and at most 255 nodes a chain. */
  ghost predicate SoundIds(cfg: CBConfig) {
    && (forall c :: 0 <= c < |cfg.chains| ==> cfg.chains[c].id < 0x100_0000 && |cfg.chains[c].nodes| <= 255)
    && (forall c, c' :: 0 <= c < c' < |cfg.chains| ==> cfg.chains[c].id != cfg.chains[c'].id)
  }

  lemma KeyNamesPosition(cfg: CBConfig, c: int, i: int, c': int, i': int)
    requires SoundIds(cfg) && IsPosition(cfg, c, i) && IsPosition(cfg, c', i')
    ensures SphAt(cfg.chains[c].id, i) == 0x100 * cfg.chains[c].id + (254 - i)
    ensures SphAt(cfg.chains[c].id, i) == SphAt(cfg.chains[c'].id, i') <==> c == c' && i == i'
  {
    hide SphAt;
    SphFields(cfg.chains[c].id, i);
    SphInjective(cfg.chains[c].id, i, cfg.chains[c'].id, i');
  }

  /* ----- forwarding tables ----- */

  function FwdTableOf(cfg: CBConfig, ag: Agents, n: string): FwdTable {
    Install(map[], FwdEntries(RulesOf(cfg, ag, n).fwd))
  }

  lemma SameKeySameRule(cfg: CBConfig, ag: Agents, n: string, r: FwdRule, r': FwdRule)
    requires SoundIds(cfg) && r in RulesOf(cfg, ag, n).fwd && r' in RulesOf(cfg, ag, n).fwd && r.key == r'.key
    ensures r == r'
  {
    hide SphAt, RulesOf, SoundIds, DirectOut;
    FwdRulesExact(cfg, ag, n, r);
    FwdRulesExact(cfg, ag, n, r');
    var c, i :| FwdFrom(cfg, ag, n, r, c, i);
    var c', i' :| FwdFrom(cfg, ag, n, r', c', i');
    KeyNamesPosition(cfg, c, i, c', i');
  }

  lemma CompiledEntriesFunctional(cfg: CBConfig, ag: Agents, n: string)
    requires SoundIds(cfg)
    ensures Functional(FwdEntries(RulesOf(cfg, ag, n).fwd))
  {
    hide RulesOf, SoundIds, SphBytes;
    var rules := RulesOf(cfg, ag, n).fwd;
    var es := FwdEntries(rules);
    forall e, e' | e in es && e' in es && e.0 == e'.0 ensures e == e' {
      var j :| 0 <= j < |es| && es[j] == e;
      var k :| 0 <= k < |es| && es[k] == e';
      SphBytesInjective(rules[j].key, rules[k].key);
      SameKeySameRule(cfg, ag, n, rules[j], rules[k]);
    }
  }

  /** A compiled rule list installed in any order, with repetitions or not, gives one and the same table. */
  lemma CompiledInstallOrderIndependent(cfg: CBConfig, ag: Agents, n: string, rules: seq<FwdRule>)
    requires SoundIds(cfg) && |RulesOf(cfg, ag, n).fwd| <= MAX_ENTRIES
    requires forall r :: r in rules <==> r in RulesOf(cfg, ag, n).fwd
    ensures Install(map[], FwdEntries(rules)) == FwdTableOf(cfg, ag, n)
  {
    hide RulesOf, SoundIds, Functional, EntryOf, FwdEntries, MapUpdate;
    var mine := RulesOf(cfg, ag, n).fwd;
    var es, es' := FwdEntries(mine), FwdEntries(rules);
    CompiledEntriesFunctional(cfg, ag, n);
    EntriesLength(mine);
    InstallFresh(es);
    forall e ensures e in es <==> e in es' {
      FwdEntriesMember(mine, e);
      FwdEntriesMember(rules, e);
    }
    InstallOrderIndependent(map[], es, es');
  }

  /** The rule of a position is found under the header that the position's encap stage looks up. */
  lemma FwdTableAt(cfg: CBConfig, ag: Agents, c: int, i: int)
    requires SoundIds(cfg) && IsPosition(cfg, c, i) && !OutAt(cfg, c, i)
    requires |RulesOf(cfg, ag, NodeAt(cfg, c, i)).fwd| <= MAX_ENTRIES
    ensures var ch, t := cfg.chains[c], FwdTableOf(cfg, ag, NodeAt(cfg, c, i));
            && ch.id < 0x100_0000 && PathSph(ch.id, 254 - i) in t
            && t[PathSph(ch.id, 254 - i)] == if Last(ch, i) then FwdEntry(1, [0, 0, 0, 0, 0, 0])
                                             else FwdEntry(0, AddressOf(ag, ch.nodes[i + 1]))
  {
    hide SphAt, RulesOf, Functional, Install, SphBytes, BitOr;
    var n, r := NodeAt(cfg, c, i), RuleAt(cfg, ag, c, i);
    var rules := RulesOf(cfg, ag, n).fwd;
    var es := FwdEntries(rules);
    FwdRulesExact(cfg, ag, n, r);
    assert FwdFrom(cfg, ag, n, r, c, i);
    KeyNamesPosition(cfg, c, i, c, i);
    var j :| 0 <= j < |rules| && rules[j] == r;
    assert es[j] == EntryOf(r);
    EntryFound(cfg, ag, n, EntryOf(r));
  }

  lemma EntryFound(cfg: CBConfig, ag: Agents, n: string, e: (Sph, FwdEntry))
    requires SoundIds(cfg) && |RulesOf(cfg, ag, n).fwd| <= MAX_ENTRIES
    requires e in FwdEntries(RulesOf(cfg, ag, n).fwd)
    ensures e.0 in FwdTableOf(cfg, ag, n) && FwdTableOf(cfg, ag, n)[e.0] == e.1
  {
    hide RulesOf, SoundIds, Install, FwdEntries;
    var es := FwdEntries(RulesOf(cfg, ag, n).fwd);
    assert |es| == |RulesOf(cfg, ag, n).fwd| by { EntriesLength(RulesOf(cfg, ag, n).fwd); }
    CompiledEntriesFunctional(cfg, ag, n);
    InstallFresh(es);
    assert e.0 in KeysOf(es);
  }

  lemma EntriesLength(rules: seq<FwdRule>)
    ensures |FwdEntries(rules)| == |rules|
  {
  }

  lemma FwdEntriesMember(rules: seq<FwdRule>, e: (Sph, FwdEntry))
    ensures e in FwdEntries(rules) <==> exists r :: r in rules && EntryOf(r) == e
  {
    hide EntryOf;
    var es := FwdEntries(rules);
    if e in es {
      var j :| 0 <= j < |es| && es[j] == e;
      assert rules[j] in rules;
    }
    if r :| r in rules && EntryOf(r) == e {
      var j :| 0 <= j < |rules| && rules[j] == r;
      assert es[j] == e;
    }
  }

  /* ----- proxy tables ----- */

  function ProxyTableOf(cfg: CBConfig, ag: Agents, n: string, stacks: Stacks): NshTable {
    Install(map[], ProxyEntries(RulesOf(cfg, ag, n).proxy, stacks))
  }

  /** The header a packet carries while the function at position i handles it. */
  ghost predicate HeaderAt(cfg: CBConfig, c: int, i: int, h: Nsh)
    requires IsPosition(cfg, c, i)
  {
    && cfg.chains[c].id < 0x100_0000 && i <= 255
    && SphOf(h) == PathSph(cfg.chains[c].id, 255 - i) && NextProtoOf(h) == NSH_NEXT_PROTO_ETHER
  }

  /** Some rule in the list puts the header under the key. */
  ghost predicate ProxyFor(rules: seq<ProxyRule>, k: Key, h: Nsh) {
    exists r, stack: seq<byte> :: |stack| == 16 && r in rules && ProxyEntryOf(r, stack) == (k, h)
  }

  lemma ProxyForHeader(cfg: CBConfig, ag: Agents, n: string, k: Key, h: Nsh) returns (r: ProxyRule)
    requires ProxyFor(RulesOf(cfg, ag, n).proxy, k, h)
    ensures r in RulesOf(cfg, ag, n).proxy && SphOf(h) == SphBytes(r.val) && NextProtoOf(h) == NSH_NEXT_PROTO_ETHER
  {
    hide RulesOf, KeyBytes, BE32, FreshNsh;
    var stack: seq<byte>;
    r, stack :| |stack| == 16 && r in RulesOf(cfg, ag, n).proxy && ProxyEntryOf(r, stack) == (k, h);
    FreshFields(BE32(r.val), stack);
  }

  /** Every proxy entry of a node is the header of the one position that makes the node need it. */
  lemma ProxyTableSound(cfg: CBConfig, ag: Agents, n: string, stacks: Stacks, k: Key, c: int, i: int)
    requires SoundIds(cfg) && NoSharing(cfg) && |RulesOf(cfg, ag, n).proxy| <= MAX_ENTRIES
    requires IsPosition(cfg, c, i) && NodeAt(cfg, c, i) == n && k in ProxyTableOf(cfg, ag, n, stacks)
    ensures NeedsProxy(cfg, cfg.chains[c], i) && HeaderAt(cfg, c, i, ProxyTableOf(cfg, ag, n, stacks)[k])
  {
    hide SphAt, RulesOf, ProxyTableOf, SphBytes, SphOf, NextProtoOf, DirectOut, Parse, ProxyFor;
    ProxyTableKeys(cfg, ag, n, stacks);
    var r := ProxyForHeader(cfg, ag, n, k, ProxyTableOf(cfg, ag, n, stacks)[k]);
    ProxyRulesExact(cfg, ag, n, r);
    var c', i' :| ProxyFrom(cfg, n, r, c', i');
    assert InAt(cfg, c', i');
    assert c == c' && i == i';
    KeyNamesPosition(cfg, c, i, c, i);
  }

  lemma FreshFields(s: Sph, stack: seq<byte>)
    requires |stack| == 16
    ensures SphOf(FreshNsh(s, stack)) == s && NextProtoOf(FreshNsh(s, stack)) == NSH_NEXT_PROTO_ETHER
  {
  }

  lemma ProxyTableKeys(cfg: CBConfig, ag: Agents, n: string, stacks: Stacks)
    requires |RulesOf(cfg, ag, n).proxy| <= MAX_ENTRIES
    ensures var rules, t := RulesOf(cfg, ag, n).proxy, ProxyTableOf(cfg, ag, n, stacks);
            && (forall k :: k in t ==> ProxyFor(rules, k, t[k]))
            && (forall r :: r in rules ==> KeyBytes(r.key) in t)
  {
    hide RulesOf, Install, KeyBytes, ProxyFor, ProxyEntries;
    var rules := RulesOf(cfg, ag, n).proxy;
    var es := ProxyEntries(rules, stacks);
    ProxyEntriesMembers(rules, stacks);
    InstallFresh(es);
    var t := ProxyTableOf(cfg, ag, n, stacks);
    forall r | r in rules ensures KeyBytes(r.key) in t {
      assert KeyBytes(r.key) in KeysOf(es);
    }
    forall k | k in t ensures ProxyFor(rules, k, t[k]) {
      assert (k, t[k]) in es;
    }
  }

  lemma ProxyEntriesMembers(rules: seq<ProxyRule>, stacks: Stacks)
    ensures |ProxyEntries(rules, stacks)| == |rules|
    ensures forall e :: e in ProxyEntries(rules, stacks) ==> ProxyFor(rules, e.0, e.1)
    ensures forall r :: r in rules ==> KeyBytes(r.key) in KeysOf(ProxyEntries(rules, stacks))
  {
    hide KeyBytes, FreshNsh;
    var es := ProxyEntries(rules, stacks);
    forall e | e in es ensures ProxyFor(rules, e.0, e.1) {
      var j :| 0 <= j < |es| && es[j] == e;
      assert ProxyEntryOf(rules[j], stacks(j)) == (e.0, e.1);
    }
    forall r | r in rules ensures KeyBytes(r.key) in KeysOf(es) {
      var j :| 0 <= j < |rules| && rules[j] == r;
      assert es[j].0 == KeyBytes(r.key) && es[j] in es;
    }
  }

  /** A listed flow has its entry wherever one is needed. */
  lemma ProxyTableComplete(cfg: CBConfig, ag: Agents, stacks: Stacks, c: int, i: int, fl: FlowText)
    requires IsPosition(cfg, c, i) && NeedsProxy(cfg, cfg.chains[c], i)
    requires |RulesOf(cfg, ag, NodeAt(cfg, c, i)).proxy| <= MAX_ENTRIES
    requires fl in cfg.chains[c].flows && Parse(fl).Some?
    ensures KeyBytes(Parse(fl).value) in ProxyTableOf(cfg, ag, NodeAt(cfg, c, i), stacks)
  {
    hide SphAt, RulesOf, ProxyTableOf, KeyBytes, NeedsProxy, Parse;
    var n := NodeAt(cfg, c, i);
    var r := ProxyRule(Parse(fl).value, (SphAt(cfg.chains[c].id, i) + 1) % 0x1_0000_0000);
    ProxyRulesExact(cfg, ag, n, r);
    assert ProxyFrom(cfg, n, r, c, i);
    ProxyTableKeys(cfg, ag, n, stacks);
  }
}
