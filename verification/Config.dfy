/** The chains configuration and the flow descriptions in it. */
module Config {
  import opened Bytes

  datatype Instance = Instance(tag: string, remote: bool)

  /** An address as `net.ParseIP` hands it over: 4 or 16 bytes. */
  type Address = a: seq<byte> | |a| == 4 || |a| == 16 witness [0, 0, 0, 0]

  /** A flow of the configuration; an address that does not parse is None. */
  datatype FlowText = FlowText(ipsrc: Option<Address>, ipdst: Option<Address>, sport: u16, dport: u16, proto: byte)

  datatype Chain = Chain(id: u32, nodes: seq<string>, flows: seq<FlowText>)

  datatype CBConfig = CBConfig(chains: seq<Chain>, functions: seq<Instance>)

  datatype FiveTuple = FiveTuple(ipsrc: u32, ipdst: u32, sport: u16, dport: u16, proto: byte)

  /* ----- looking up instances ----- */

  /** The instance a name stands for: the last one declared under that tag. */
  function Find(fs: seq<Instance>, name: string): Option<Instance> {
    if fs == [] then None
    else if fs[|fs| - 1].tag == name then Some(fs[|fs| - 1])
    else Find(fs[..|fs| - 1], name)
  }

  /** The index `NewCBConfig` builds, and what `GetNodeByName` makes of it. */
  method BuildIndex(fs: seq<Instance>) returns (name2idx: map<string, nat>)
    ensures forall name :: name in name2idx ==> name2idx[name] < |fs|
    ensures forall name :: Find(fs, name) == if name in name2idx then Some(fs[name2idx[name]]) else None
  {
    name2idx := map[];
    for i := 0 to |fs|
      invariant forall name :: name in name2idx ==> name2idx[name] < i
      invariant forall name :: Find(fs[..i], name) == if name in name2idx then Some(fs[name2idx[name]]) else None
    {
      assert fs[..i + 1][..i] == fs[..i];
      name2idx := name2idx[fs[i].tag := i];
    }
    assert fs[..|fs|] == fs;
  }

  lemma {:induction false} FindSound(fs: seq<Instance>, name: string)
    ensures Find(fs, name).Some? <==> exists i :: 0 <= i < |fs| && fs[i].tag == name
    ensures Find(fs, name).Some? ==> Find(fs, name).value in fs && Find(fs, name).value.tag == name
  {
    if fs != [] {
      var rest := fs[..|fs| - 1];
      FindSound(rest, name);
      if Find(rest, name).Some? {
        var i :| 0 <= i < |rest| && rest[i].tag == name;
        assert fs[i].tag == name;
      }
    }
  }

  /** Of several instances with one tag the last one counts. */
  lemma {:induction false} LastInstanceCounts(fs: seq<Instance>, i: nat)
    requires i < |fs| && forall j :: i < j < |fs| ==> fs[j].tag != fs[i].tag
    ensures Find(fs, fs[i].tag) == Some(fs[i])
  {
    var rest := fs[..|fs| - 1];
    if i < |rest| {
      assert rest[i] == fs[i];
      LastInstanceCounts(rest, i);
    }
  }

  predicate Declared(cfg: CBConfig, name: string) { Find(cfg.functions, name).Some? }

  /** Whether the deployment treats the node as local, that is, able to hold one end of a direct link. */
  predicate Local(cfg: CBConfig, name: string) {
    Declared(cfg, name) && !Find(cfg.functions, name).value.remote
  }

  /** Where tags are unique, a node is local exactly if it is declared so. */
  lemma LocalDeclared(cfg: CBConfig, name: string)
    requires forall i, j :: 0 <= i < j < |cfg.functions| ==> cfg.functions[i].tag != cfg.functions[j].tag
    ensures Local(cfg, name) <==> Instance(name, false) in cfg.functions
    ensures Declared(cfg, name) <==> Instance(name, false) in cfg.functions || Instance(name, true) in cfg.functions
  {
    hide Find;
    FindSound(cfg.functions, name);
  }

  /* ----- parsing flows ----- */

  /** `ip2int`: the last four bytes, most significant first. */
  function Ip2Int(a: Address): u32 {
    if |a| == 16 then FromBE32(a[12..16]) else FromBE32(a)
  }

  function Int2Ip(n: u32): Address { BE32(n) }

  lemma IpRoundTrip(n: u32, a: Address)
    ensures Ip2Int(Int2Ip(n)) == n
    ensures Int2Ip(Ip2Int(a)) == a[|a| - 4..]
  {
    FromBE32RoundTrip(n);
    BE32RoundTrip(a[|a| - 4..]);
    assert |a| == 4 ==> a[0..] == a;
  }

  function Parse(t: FlowText): Option<FiveTuple> {
    if t.ipsrc.None? || t.ipdst.None? then None
    else Some(FiveTuple(Ip2Int(t.ipsrc.value), Ip2Int(t.ipdst.value), t.sport, t.dport, t.proto))
  }
}
