/** The tunnel function: IP-in-IP encapsulation with an enciphered payload, and the program that undoes it. */
module Tunnel {
  import opened Bytes
  import opened Frames
  import opened Cipher
  import opened Checksum
  import opened Agent

  const ICMP_ECHO: byte := 8
  const ICMP_ECHOREPLY: byte := 0
  const TIMEVAL_LEN: nat := 16

  datatype Verdict = Untouched | Shot | Redirected | Passed | Transmitted

  /* ----- chacha ----- */

  /** What the checks of `parse_ip` make of a frame; an accepted one has its payload at an offset. */
  datatype Parsed = NotMine | Refused | Payload(offset: nat)

  function Inspect(f: Frame): (p: Parsed)
    ensures p.Payload? ==> 42 <= p.offset <= 58 && 42 <= |f|
  {
    if |f| < ETH_HLEN || f[12..14] != ETH_P_IP then NotMine
    else if |f| < 34 || f[14] % 16 != 5 || f[20] % 64 != 0 || f[21] != 0 then Refused
    else if f[23] == IPPROTO_TCP then (if |f| < 42 then Refused else Payload(54))
    else if f[23] == IPPROTO_UDP then (if |f| < 42 then Refused else Payload(42))
    else if f[23] == IPPROTO_ICMP then
      if |f| < 42 then Refused
      else if f[34] != ICMP_ECHO then Payload(42)
      else if |f| < 42 + TIMEVAL_LEN then Refused
      else Payload(42 + TIMEVAL_LEN)
    else NotMine
  }

  /** The outer header before its checksum: version 4, five words, TTL 8, protocol IP-in-IP, the inner addresses. */
  function BareOuter(f: Frame): (h: seq<byte>)
    requires |f| >= 34
    ensures |h| == IP_HLEN
  {
    [0x45, 0] + BE16((FromBE16(f[16..18]) as int + 20) % 0x1_0000) + [0, 0, 0, 0, 8, IPPROTO_IPIP, 0, 0] + f[26..34]
  }

  function Outer(f: Frame): (h: seq<byte>)
    requires |f| >= 34
    ensures |h| == IP_HLEN
  {
    WithCheck(BareOuter(f))
  }

  function Wrapped(f: Frame, off: nat): Frame
    requires ETH_HLEN + IP_HLEN <= off <= |f|
  {
    Ciphered(f[..ETH_HLEN] + Outer(f) + f[ETH_HLEN..], off + IP_HLEN)
  }

  /** `cha` and `parse_ip`. `room` is None where the helper fails; `port` says whether an egress is configured. */
  method Cha(pkt: Packet, room: Option<seq<byte>>, port: bool) returns (v: Verdict)
    requires room.Some? ==> |room.value| == IP_HLEN
    modifies pkt
    ensures var f, p := old(pkt.data), Inspect(old(pkt.data));
            && (p == NotMine ==> v == Untouched && pkt.data == f)
            && (v == Redirected <==> p.Payload? && room.Some? && p.offset <= |f| && port)
            && (v == Redirected ==> pkt.data == Wrapped(f, p.offset))
            && (v == Untouched || v == Redirected || v == Shot) && (v == Untouched ==> p == NotMine)
  {
    hide Ciphered;
    var f := pkt.data;
    if ETH_HLEN > |f| { return Untouched; }
    if f[12..14] != ETH_P_IP { return Untouched; }
    var p := ParseIp(f);
    if p == NotMine { return Untouched; }
    if p == Refused { return Shot; }
    var nfOff := p.offset;
    if room == None { return Shot; }
    pkt.AdjustRoom(room.value);
    if nfOff + IP_HLEN > |pkt.data| { return Shot; }
    nfOff := nfOff + IP_HLEN;
    var hdr := BuildOuter(f);
    SpliceMiddle(f[..14], room.value, f[14..], hdr);
    pkt.Store(ETH_HLEN, hdr);
    EncryptPayload(pkt, nfOff);
    return if port then Redirected else Shot;
  }

  /** The protocol checks of `parse_ip`, moving the offset along. */
  method ParseIp(f: Frame) returns (p: Parsed)
    requires |f| >= ETH_HLEN && f[12..14] == ETH_P_IP
    ensures p == Inspect(f)
  {
    var nfOff := ETH_HLEN;
    if nfOff + IP_HLEN > |f| { return Refused; }
    if f[14] % 16 != 5 { return Refused; }
    var proto := f[23];
    nfOff := nfOff + IP_HLEN;
    if f[20] % 64 != 0 || f[21] != 0 { return Refused; }
    if proto == IPPROTO_TCP {
      if nfOff + 8 > |f| { return Refused; }
      nfOff := nfOff + 20;
    } else if proto == IPPROTO_UDP {
      if nfOff + 8 > |f| { return Refused; }
      nfOff := nfOff + 8;
    } else if proto == IPPROTO_ICMP {
      if nfOff + 8 > |f| { return Refused; }
      var kind := f[nfOff];
      nfOff := nfOff + 8;
      if kind == ICMP_ECHO {
        if nfOff + TIMEVAL_LEN > |f| { return Refused; }
        nfOff := nfOff + TIMEVAL_LEN;
      }
    } else {
      return NotMine;
    }
    return Payload(nfOff);
  }

  /** Fills the header field by field, sums it with a zero check field, then sets the field. */
  method BuildOuter(f: Frame) returns (h: seq<byte>)
    requires |f| >= 34
    ensures h == Outer(f)
  {
    var payloadLen := FromBE16(f[16..18]);
    var totLen: u16 := (payloadLen as int + 20) % 0x1_0000;
    Swap16Layout(totLen);
    h := [0x45, 0] + LE16(Swap16(totLen)) + [0, 0, 0, 0, 8, IPPROTO_IPIP, 0, 0] + f[26..30] + f[30..34];
    assert f[26..30] + f[30..34] == f[26..34];
    assert h == BareOuter(f);
    var csum := SumHeader(h);
    var check: u16 := 0xFFFF - (csum % 0x1_0000 + csum / 0x1_0000) % 0x1_0000;
    h := h[..10] + LE16(check) + h[12..];
  }

  /** The outer header of a frame is one that verifies exactly where the single fold of its sum does not carry. */
  lemma OuterVerifies(f: Frame)
    requires |f| >= 34
    ensures WordSum(BareOuter(f), 10) < 0x10_0000
    ensures Verifies(Outer(f)) <==> Fold(WordSum(BareOuter(f), 10)) < 0x1_0000
  {
    hide WordSum, Verifies, WithCheck;
    var h := BareOuter(f);
    SumBound(h, 10);
    OuterNotZero(h);
    SingleFoldCondition(h);
  }

  /** One such header: 10.10.0.1 to 10.10.154.236, inner length 1254. Its sum is 131071 and folds to 65536. */
  lemma OuterThatFails(f: Frame)
    requires |f| >= 34 && f[16..18] == [0x04, 0xE6] && f[26..34] == [10, 10, 0, 1, 10, 10, 154, 236]
    ensures !Verifies(Outer(f))
  {
    hide Verifies, Outer, BareOuter;
    ConcreteSum(f);
    OuterVerifies(f);
  }

  lemma ConcreteSum(f: Frame)
    requires |f| >= 34 && f[16..18] == [0x04, 0xE6] && f[26..34] == [10, 10, 0, 1, 10, 10, 154, 236]
    ensures WordSum(BareOuter(f), 10) == 131071
  {
    var h := BareOuter(f);
    assert FromBE16(f[16..18]) == 1254;
    assert BE16(1274) == [0x04, 0xFA];
    assert h == [0x45, 0, 0x04, 0xFA, 0, 0, 0, 0, 8, 4, 0, 0, 10, 10, 0, 1, 10, 10, 154, 236];
    ConcreteSumOf(h);
  }

  lemma ConcreteSumOf(h: seq<byte>)
    requires h == [0x45, 0, 0x04, 0xFA, 0, 0, 0, 0, 8, 4, 0, 0, 10, 10, 0, 1, 10, 10, 154, 236]
    ensures WordSum(h, 10) == 131071
  {
    SumOfTen(h);
    assert h[0] == 0x45 && h[2] == 0x04 && h[4] == 0 && h[6] == 0 && h[8] == 8;
    assert h[1] == 0 && h[3] == 0xFA && h[5] == 0 && h[7] == 0 && h[9] == 4;
    assert h[10] == 0 && h[12] == 10 && h[14] == 0 && h[16] == 10 && h[18] == 154;
    assert h[11] == 0 && h[13] == 10 && h[15] == 1 && h[17] == 10 && h[19] == 236;
  }

  lemma SumOfTen(h: seq<byte>)
    requires |h| == 20
    ensures WordSum(h, 10) == h[0] as int + h[2] + h[4] + h[6] + h[8] + h[10] + h[12] + h[14] + h[16] + h[18]
      + 0x100 * (h[1] as int + h[3] + h[5] + h[7] + h[9] + h[11] + h[13] + h[15] + h[17] + h[19])
  {
    hide WordSum;
    WordAdds(h, 0);
    WordAdds(h, 1);
    WordAdds(h, 2);
    WordAdds(h, 3);
    WordAdds(h, 4);
    WordAdds(h, 5);
    WordAdds(h, 6);
    WordAdds(h, 7);
    WordAdds(h, 8);
    WordAdds(h, 9);
  }

  lemma WordAdds(h: seq<byte>, n: nat)
    requires 2 * n + 2 <= |h|
    ensures WordSum(h, n + 1) == WordSum(h, n) + h[2 * n] + 0x100 * (h[2 * n + 1] as int)
    ensures WordSum(h, 0) == 0
  {
    var w := h[2 * n..2 * n + 2];
    assert w[0] == h[2 * n] && w[1] == h[2 * n + 1];
  }

  lemma OuterNotZero(h: seq<byte>)
    requires |h| == 20 && h[0] == 0x45
    ensures WordSum(h, 10) > 0
  {
    assert WordSum(h, 0) == 0;
    assert h[0..2][0] == 0x45;
    assert WordSum(h, 1) > 0;
    SumGrows(h, 1, 10);
  }

  lemma {:induction false} SumGrows(h: seq<byte>, m: nat, n: nat)
    requires m <= n && 2 * n <= |h|
    ensures WordSum(h, m) <= WordSum(h, n)
  {
    if m < n { SumGrows(h, m, n - 1); }
  }

  /* ----- decap_ipip ----- */

  const TESTBED_MACS: seq<byte> := [0x00, 0x15, 0x4d, 0x13, 0x81, 0x7f, 0xaa, 0xbb, 0xcc, 0xdd, 0xee, 0xff]

  predicate IsEcho(f: Frame) {
    |f| >= 42 && f[23] == IPPROTO_ICMP && f[34] == ICMP_ECHO
  }

  /** The echo request turned into its reply, checksum zeroed. */
  function Reply(f: Frame): Frame
    requires IsEcho(f)
  {
    TESTBED_MACS + f[12..26] + f[30..34] + f[26..30] + [ICMP_ECHOREPLY] + f[35..36] + [0, 0] + f[38..]
  }

  datatype Unwrapping = Unwrapping(verdict: Verdict, frame: Frame)

  /** Echo requests are answered, everything else is passed up. */
  function Answer(f: Frame): Unwrapping {
    if IsEcho(f) then Unwrapping(Transmitted, Reply(f)) else Unwrapping(Passed, f)
  }

  function Unwrap(g: Frame): Unwrapping {
    if |g| < 34 || g[12..14] != ETH_P_IP || g[23] != IPPROTO_IPIP then Unwrapping(Passed, g)
    else
      Answer(g[..ETH_HLEN] + g[ETH_HLEN + IP_HLEN..])
  }

  method DecapIpip(pkt: Packet) returns (v: Verdict)
    modifies pkt
    ensures Unwrapping(v, pkt.data) == Unwrap(old(pkt.data))
  {
    ghost var g := pkt.data;
    var offset := 0;
    if ETH_HLEN > |pkt.data| { return Passed; }
    offset := offset + ETH_HLEN;
    if pkt.data[12..14] != ETH_P_IP { return Passed; }
    offset := offset + IP_HLEN;
    if offset > |pkt.data| { return Passed; }
    if pkt.data[23] != IPPROTO_IPIP { return Passed; }
    pkt.Store(offset - ETH_HLEN, pkt.data[..ETH_HLEN]);
    pkt.Pull(IP_HLEN);
    assert pkt.data == g[..ETH_HLEN] + g[offset..];
    if ETH_HLEN + IP_HLEN > |pkt.data| { return Passed; }
    if pkt.data[23] != IPPROTO_ICMP { return Passed; }
    if 42 > |pkt.data| { return Passed; }
    if pkt.data[34] != ICMP_ECHO { return Passed; }
    MakeReply(pkt);
    return Transmitted;
  }

  method MakeReply(pkt: Packet)
    requires IsEcho(pkt.data)
    modifies pkt
    ensures pkt.data == Reply(old(pkt.data))
  {
    ghost var f := pkt.data;
    SetTestbedMacs(pkt);
    assert pkt.data[26..30] == f[26..30] && pkt.data[30..34] == f[30..34] && pkt.data[34..] == f[34..];
    assert pkt.data[..26] == TESTBED_MACS + f[12..26];
    SwapAddresses(pkt);
    ghost var head := TESTBED_MACS + f[12..26] + f[30..34] + f[26..30];
    assert pkt.data == head + f[34..];
    EndReply(pkt, head, f[34..]);
    SliceOfSlice(f, 34, 1, 2);
    TailOfTail(f, 34, 4);
  }

  method SetTestbedMacs(pkt: Packet)
    requires |pkt.data| >= ETH_HLEN
    modifies pkt
    ensures pkt.data == TESTBED_MACS + old(pkt.data)[12..]
  {
    pkt.Store(6, TESTBED_MACS[6..]);
    pkt.Store(0, TESTBED_MACS[..6]);
  }

  method SwapAddresses(pkt: Packet)
    requires |pkt.data| >= 34
    modifies pkt
    ensures pkt.data == old(pkt.data[..26] + pkt.data[30..34] + pkt.data[26..30] + pkt.data[34..])
  {
    ghost var f := pkt.data;
    var aux := pkt.data[26..30];
    pkt.Store(26, pkt.data[30..34]);
    assert pkt.data == f[..26] + f[30..34] + f[30..];
    pkt.Store(30, aux);
  }

  /** Type and checksum of the ICMP header behind `head`. */
  method EndReply(pkt: Packet, ghost head: seq<byte>, ghost icmp: seq<byte>)
    requires |head| == 34 && |icmp| >= 8 && pkt.data == head + icmp
    modifies pkt
    ensures pkt.data == head + [ICMP_ECHOREPLY] + icmp[1..2] + [0, 0] + icmp[4..]
  {
    assert pkt.data == head + icmp[..1] + icmp[1..];
    SpliceMiddle(head, icmp[..1], icmp[1..], [ICMP_ECHOREPLY]);
    pkt.Store(34, [ICMP_ECHOREPLY]);
    ghost var upto := head + [ICMP_ECHOREPLY] + icmp[1..2];
    assert pkt.data == upto + icmp[2..4] + icmp[4..];
    SpliceMiddle(upto, icmp[2..4], icmp[4..], [0, 0]);
    pkt.Store(36, [0, 0]);
  }

  /* ----- round trip ----- */

  /** Enciphering behind an inserted header is enciphering, then inserting. */
  lemma CipherBehind(pre: Frame, outer: seq<byte>, rest: Frame, off: nat)
    requires |pre| <= off <= |pre + rest|
    ensures Ciphered(pre + outer + rest, off + |outer|) == pre + outer + Ciphered(pre + rest, off)[|pre|..]
    ensures Ciphered(pre + rest, off)[..off] == (pre + rest)[..off]
  {
    hide Stream, ZeroState, Xor8;
    var a, b := Ciphered(pre + outer + rest, off + |outer|), Ciphered(pre + rest, off);
    assert |pre + outer + rest| - (off + |outer|) == |pre + rest| - off;
    forall j | 0 <= j < |a| ensures a[j] == (pre + outer + b[|pre|..])[j] {}
  }

  lemma WrappedShape(f: Frame, off: nat)
    requires ETH_HLEN + IP_HLEN <= off <= |f|
    ensures Wrapped(f, off) == f[..ETH_HLEN] + Outer(f) + Ciphered(f, off)[ETH_HLEN..]
    ensures Ciphered(f, off)[..off] == f[..off]
  {
    hide Ciphered, Outer;
    assert f[..ETH_HLEN] + f[ETH_HLEN..] == f;
    CipherBehind(f[..ETH_HLEN], Outer(f), f[ETH_HLEN..], off);
  }

  /** The frame was accepted and is long enough for its transport header. */
  predicate Carried(f: Frame, off: nat) {
    Inspect(f) == Payload(off) && off <= |f|
  }

  /** The tunnel undone: all bytes in front of the payload are back as they were and the payload is the
      enciphered one, so one more run of the cipher restores the frame. Echo requests come back as replies. */
  lemma TunnelRoundTrip(f: Frame, off: nat, c: Frame)
    requires Carried(f, off) && c == Ciphered(f, off)
    ensures Unwrap(Wrapped(f, off)) == Answer(c)
    ensures IsEcho(c) <==> IsEcho(f)
    ensures c[..off] == f[..off] && Ciphered(c, off) == f
  {
    hide Ciphered, Answer, Wrapped, Outer;
    var g := Wrapped(f, off);
    WrappedShape(f, off);
    CipherInvolution(f, off);
    SameFront(f, c, off);
    OuterProtocol(f);
    WrappedFields(f[..ETH_HLEN], Outer(f), c[ETH_HLEN..]);
    assert c == c[..ETH_HLEN] + c[ETH_HLEN..];
  }

  lemma SameFront(f: Frame, c: Frame, off: nat)
    requires |c| == |f| && 42 <= off <= |f| && c[..off] == f[..off]
    ensures c[..14] == f[..14] && c[12..14] == f[12..14] && c[14..18] == f[14..18] && c[34..38] == f[34..38]
    ensures c[23] == f[23] && c[34] == f[34]
  {
    assert forall j :: 0 <= j < off ==> c[..off][j] == c[j] && f[..off][j] == f[j];
  }

  lemma WrappedFields(eth: seq<byte>, outer: seq<byte>, inner: seq<byte>)
    requires |eth| == ETH_HLEN && |outer| == IP_HLEN
    ensures var g := eth + outer + inner;
            && g[..14] == eth && g[12..14] == eth[12..14] && g[23] == outer[9]
            && g[34..] == inner && g[14..] == outer + inner
  {
  }

  lemma OuterProtocol(f: Frame)
    requires |f| >= 34
    ensures Outer(f)[9] == IPPROTO_IPIP
  {
    hide WordSum;
  }

  /* ----- the tunnel inside a chain ----- */

  /** As a function of a chain the tunnel keeps the flow key of ICMP packets; that of TCP and UDP packets
      only where the ports happen to repeat the first four bytes of the IP header. */
  lemma TunnelFlowKey(f: Frame, off: nat)
    requires Carried(f, off)
    ensures FlowOf(f).Some?
    ensures FlowOf(Wrapped(f, off)) == FlowOf(f) <==> f[23] == IPPROTO_ICMP || f[14..18] == f[34..38]
  {
    hide Ciphered, Wrapped, Outer, TupleOf;
    var c, g := Ciphered(f, off), Wrapped(f, off);
    WrappedShape(f, off);
    OuterProtocol(f);
    SameFront(f, c, off);
    var p, q := f[ETH_HLEN..], c[ETH_HLEN..];
    WrappedFields(f[..ETH_HLEN], Outer(f), q);
    forall j | 0 <= j < off - ETH_HLEN ensures p[j] == q[j] {
      assert c[..off][j + ETH_HLEN] == f[..off][j + ETH_HLEN];
    }
    SameKeyBytes(p, q, off - ETH_HLEN);
    IpipKey(Outer(f), q);
    assert q[..4] == c[14..18] && q[20..24] == c[34..38];
  }

  /** Packets that agree up to their payload have the same key. */
  lemma SameKeyBytes(p: seq<byte>, q: seq<byte>, n: nat)
    requires |p| == |q| && IP_HLEN + 8 <= n <= |p| && (forall j :: 0 <= j < n ==> p[j] == q[j])
    requires p[9] == IPPROTO_ICMP || p[9] == IPPROTO_UDP || (p[9] == IPPROTO_TCP && n >= 40)
    ensures TupleOf(p) == TupleOf(q) && TupleOf(p).Some?
  {
    assert p[12..20] == q[12..20] && p[20..24] == q[20..24];
  }

  /* ----- headers, byte for byte ----- */

  /** The outer header: version 4 and five words, the inner length plus 20, nothing about fragments, TTL 8,
      IP-in-IP, and both addresses where the inner header has them. */
  lemma OuterFields(f: Frame)
    requires |f| >= 34
    ensures var h := Outer(f);
            && h[0] == 0x45 && h[1] == 0
            && FromBE16(h[2..4]) == (0x100 * (f[16] as int) + f[17] + 20) % 0x1_0000
            && h[4..8] == [0, 0, 0, 0] && h[8] == 8 && h[9] == 4
            && h[12..16] == f[26..30] && h[16..20] == f[30..34]
  {
    hide StoredCheck, WordSum, BE16, LE16;
    var len: u16 := (FromBE16(f[16..18]) as int + 20) % 0x1_0000;
    FromBE16RoundTrip(len);
    HeaderParts(BE16(len), LE16(StoredCheck(WordSum(BareOuter(f), 10))), f[26..34]);
  }

  lemma HeaderParts(len: seq<byte>, check: seq<byte>, addresses: seq<byte>)
    requires |len| == 2 && |check| == 2 && |addresses| == 8
    ensures var b := [0x45, 0] + len + [0, 0, 0, 0, 8, IPPROTO_IPIP, 0, 0] + addresses;
            var h := b[..10] + check + b[12..];
            && h[0] == 0x45 && h[1] == 0 && h[2..4] == len && h[4..8] == [0, 0, 0, 0] && h[8] == 8 && h[9] == 4
            && h[12..16] == addresses[..4] && h[16..20] == addresses[4..]
  {
    var b := [0x45, 0] + len + [0, 0, 0, 0, 8, IPPROTO_IPIP, 0, 0] + addresses;
    var front := [0x45, 0] + len + [0, 0, 0, 0] + [8, IPPROTO_IPIP];
    var h := b[..10] + check + b[12..];
    assert b[..10] == front && b[12..] == addresses;
    assert h[..10] == front && h[12..] == addresses;
    assert front[2..4] == len && front[4..8] == [0, 0, 0, 0];
    assert h[2..4] == h[..10][2..4] && h[4..8] == h[..10][4..8];
    assert h[12..16] == h[12..][..4] && h[16..20] == h[12..][4..];
  }

  /** The reply to an echo request: addresses exchanged, type 0, no checksum, all else but the Ethernet
      addresses as in the request. */
  lemma ReplyFields(f: Frame)
    requires IsEcho(f)
    ensures var r := Reply(f);
            && |r| == |f|
            && r[..6] == [0x00, 0x15, 0x4d, 0x13, 0x81, 0x7f] && r[6..12] == [0xaa, 0xbb, 0xcc, 0xdd, 0xee, 0xff]
            && r[12..26] == f[12..26] && r[26..30] == f[30..34] && r[30..34] == f[26..30]
            && r[34] == 0 && r[35] == f[35] && r[36..38] == [0, 0] && r[38..] == f[38..]
  {
  }

  /** What the mask 65343 leaves of a 16-bit field: its upper byte and its low six bits. */
  function Masked(v: u16): u16 { v / 0x100 * 0x100 + v % 0x40 }

  /** A fragment: something is left of the field as a little-endian host loads it. */
  predicate Fragment(field: seq<byte>)
    requires |field| == 2
  {
    Masked(FromLE16(field)) != 0
  }

  lemma FragmentBytes(field: seq<byte>)
    requires |field| == 2
    ensures Fragment(field) <==> field[0] % 64 != 0 || field[1] != 0
  {
    var v := FromLE16(field);
    assert v == field[0] + 0x100 * (field[1] as int);
    assert v / 0x100 == field[1] && v % 0x100 == field[0];
  }

  /** Which frames the tunnel takes, and where their payload starts: behind the transport header, and for an
      echo request 16 bytes further. */
  lemma TunnelTakes(f: Frame)
    ensures var p := Inspect(f);
            && (p.Payload? <==>
                  && |f| >= 42 && f[12..14] == [0x08, 0x00] && f[14] % 16 == 5 && !Fragment(f[20..22])
                  && (f[23] == 6 || f[23] == 17 || (f[23] == 1 && (f[34] == 8 ==> |f| >= 58))))
            && (p == NotMine <==>
                  || |f| < 14 || f[12..14] != [0x08, 0x00]
                  || (|f| >= 34 && f[14] % 16 == 5 && !Fragment(f[20..22]) && f[23] !in [1, 6, 17]))
            && (p.Payload? ==>
                  p.offset == 34 + (if f[23] == 6 then 20 else 8) + (if f[23] == 1 && f[34] == 8 then 16 else 0))
  {
    hide Fragment;
    if |f| >= 34 { FragmentBytes(f[20..22]); }
  }

  /** Frames that are not IP-in-IP are passed up as they are. */
  lemma UnwrapLeavesOthers(g: Frame)
    requires |g| < 34 || g[12..14] != [0x08, 0x00] || g[23] != 4
    ensures Unwrap(g) == Unwrapping(Passed, g)
  {
  }

  /** Of an IP-in-IP frame the outer header goes, and what is left is passed up unless it is an echo request. */
  lemma UnwrapFields(g: Frame)
    requires |g| >= 34 && g[12..14] == [0x08, 0x00] && g[23] == 4
    ensures var u, f := Unwrap(g), g[..14] + g[34..];
            if |f| >= 42 && f[23] == 1 && f[34] == 8 then u == Unwrapping(Transmitted, Reply(f))
            else u == Unwrapping(Passed, f)
  {
  }
}
