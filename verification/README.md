# Chaining-Box in Dafny

Chaining-Box turns a chains configuration into rules for a set of nodes, deploys the nodes, and lets small
programs in each node carry packets from function to function behind a Network Service Header (NSH). This
project models the pieces that decide where a packet goes and what bytes it has, and proves what they
amount to together.

**Service chains.**

- `Bytes`, `Frames`, `Stages`, `Classifier`: frames as byte sequences, the packet buffer the programs rewrite,
  the flow key `get_tuple` reads, and the programs `decap_nsh`, `encap_nsh`, `sfc_forwarding` and `classify_tc`
  as methods that change a buffer and a node's maps. Each is proved equal to a function of the old buffer and maps.
- `Pipeline`: what encap and forward do together, the byte-exact hop from node to node, and loop freedom for
  arbitrary tables.
- `Config`, `Manager`, `Rules`: the configuration and the rule compiler `InstallConfiguration`, with the list of
  rules every node is sent, position by position.
- `Agent`, `Tables`: the byte-swapping installation of those rules, and which header finds which rule afterwards.
- `Deployer`, `Agreement`: the planning of direct links, and the exact condition under which deployer and
  manager agree about the stages a node runs.
- `Network`, `Safety`, `EndToEnd`: the deployed system as a state machine with any number of packets under way,
  an invariant of every interleaving, and the end-to-end theorems.
- `Returning`: chains that come back to a node, where two packets of one flow can disturb each other, and the
  proof that this is exactly where they can.
- `Example`: two of the repository's configurations, deployed so that all hypotheses hold.

**The tunnel function.** `Words`, `ChaCha`, `Octets`, `Cipher`, `Checksum`, `Tunnel`: the cipher of
`chacha_kern.c` on 32-bit words, its counter and its in-place loop, the IP-in-IP header with its checksum, and
the program `decap_ipip` that undoes the wrapping. `CipherVectors` computes the published first block of the key
stream.

**The hash.** `Jhash`: the variants of the Jenkins hash in `jhash.h`. `HashVectors` computes known values, one of
them from the self-test of the original.

## Hypotheses of the network theorems

`Network.WellFormed` collects them:

- the planning loops accepted the configuration, and no node with a direct link stands at a second chain
  position (`Deployer`'s warning; `Agreement.AgreementCondition` shows that nothing weaker will do);
- chain ids are distinct and below 2^24, chains have at most 255 nodes: the two checks `definitions.go:89-90`
  leaves to be written;
- every chain node is declared, every declared node has an agent connected, and that agent reported the address
  it was started with; ingress addresses are unicast and distinct;
- each classified flow has one chain, the classifier entry is that chain's id at index 255 towards its first
  node, and the flow is listed with the chain where the chain needs proxy rules;
- rules and classified flows fit the maps of 2048 entries. `Pipeline.FullTableEndsTheChain` says what happens
  when a node's header table is full: decap ignores the failed store and the packet leaves its chain there;
- functions leave the bytes of the flow key alone. `Tunnel.TunnelFlowKey` says exactly when the repository's own
  tunnel function does: for ICMP, and for TCP and UDP only by coincidence. A function is a relation between
  the frame it gets and the frame it sends, so it may keep state of its own and choose.

Theorems about progress also ask that a function has some output for every frame (`EndToEnd.FunctionsAnswer`).
Tables are fixed while packets are under way, except for the headers decap stores. Packets may be lost anywhere,
and any number of packets of any flows may enter at any time.

Nodes keep one header per flow. On a chain that comes back to a node, the safety theorems therefore speak of
packets that are `Undisturbed`: no other packet of their flow is under way with them.
`Returning.ExactlyWithoutReturn` shows where this is needed: in all runs all packets of a flow stay on their
path if and only if the flow's chain comes back to no node. For every chain that does, it builds a run of two
packets from the installed state: one waits at the second visit while the other is received at the first, and
is then sent on as if it were the other.

## Findings

- `Agreement.AgreementCondition`, `Agreement.DeployerAcceptsSharedNode`: the deployer's check lets configurations
  through in which deployer and manager contradict each other, for instance the local chain a, b, a.
- `Returning.ExactlyWithoutReturn`, `Example.StarStrays`: two packets of one flow suffice for one to leave its
  path, on every chain that visits a node twice and on no other, for instance the star sf1, sf2, sf1.
- `Manager.KeysDifferExactly`, `Manager.IdsApartExactly`: `spi | (254 - i)` names chain and position exactly while
  chains have at most 255 nodes. At a position from 255 up to 2^32 - 2 there are always two ids of 24 bits with
  the same key; at positions 255 to 510 all ids have the same one (`Manager.SphBeyondIndexSpace`).
- `Agent.FlowKeyAgreement`: a proxy rule for an ICMP flow listed with nonzero ports is never found.
- `Checksum.SingleFoldCondition`, `Tunnel.OuterVerifies`, `Tunnel.OuterThatFails`: the tunnel folds the header sum
  once; exactly where that fold carries again the stored checksum is wrong.

## Model

| member | source | states |
|---|---|---|
| Bytes.Swap32Layout | src/utils/cb_agent_helpers.c:141-147 | a word passed through htonl on a little-endian host lies in memory in network order |
| Bytes.SwapOfLoad | src/kernel/sfc_stages_kern.c:224-227 | ntohl of a loaded path header is its numeric value |
| Bytes.DecrementLastByte | src/kernel/sfc_stages_kern.c:229-242 | with a nonzero index, taking one from the whole word changes its last byte only |
| Bytes.NetworkOrder | src/utils/cb_agent_helpers.c:149-157 | network order is most significant byte first |
| Frames.GetTuple | src/headers/cb_helpers.h:25-81 | fails exactly where a header is cut short or the protocol is unknown, otherwise yields the 13 bytes of addresses (of the inner header behind IP-in-IP), ports and protocol |
| Frames.ReadPorts | src/headers/cb_helpers.h:50-78 | ports are read behind the first IP header, for TCP and UDP only, and only where their whole header is there |
| Frames.TupleExists | src/headers/cb_helpers.h:30-80 | a packet has a key exactly if its headers are whole and its protocol, inside one IP-in-IP header, is UDP, TCP or ICMP: 8, 20 and 0 bytes behind the first header |
| Frames.TupleFields | src/headers/cb_helpers.h:46-74 | which byte of the packet each byte of its key is |
| Frames.FreshHeaderFields | src/kernel/sfc_classifier_kern.c:152-161 | a new header says version 0, TTL 63, length 2, MD type 2, Ethernet inside, and the given path |
| Frames.FlowIgnoresMacs | src/headers/cb_helpers.h:25-81 | the flow of a frame does not depend on its Ethernet addresses |
| Frames.Packet.OpenMacRoom | src/kernel/sfc_stages_kern.c:258-282 | room opened behind the MAC header and the header copied to its end leave the whole old frame behind an outer MAC header and 24 arbitrary bytes |
| Stages.Node.SetSrcMac | src/kernel/sfc_stages_kern.c:37-53 | replaces the source address, or fails and changes nothing where none is configured |
| Stages.Node.SameMac | src/kernel/sfc_stages_kern.c:93-104 | the byte loop decides equality of the destination and the node's address |
| Stages.Node.StripNsh | src/kernel/sfc_stages_kern.c:127-173 | drops what is cut short, not Ethernet inside or without a flow key; else stores the header under the key and leaves the inner frame |
| Stages.Node.DecapNsh | src/kernel/sfc_stages_kern.c:55-173 | verdict, frame and header table of every branch, with at most one VLAN tag in front of the NSH |
| Pipeline.DecapOfOthers | src/kernel/sfc_stages_kern.c:75-104 | group addresses, short frames and all frames of a node without an address are passed, other unicast addresses dropped, the table kept |
| Pipeline.DecapOfPlain | src/kernel/sfc_stages_kern.c:124-125 | plain traffic for the node is passed up as it is |
| Pipeline.DecapOfNsh | src/kernel/sfc_stages_kern.c:127-172 | an NSH frame is taken apart exactly if it is whole, holds Ethernet and has a flow key inside, whatever the inner EtherType; else dropped |
| Pipeline.DecapBehindTag | src/kernel/sfc_stages_kern.c:109-122 | one VLAN tag changes nothing about an NSH frame, and any other tagged frame is passed |
| Pipeline.DecapOfCutTag | src/kernel/sfc_stages_kern.c:113-114 | a frame without its whole tag is dropped |
| Stages.Node.NextSph | src/kernel/sfc_stages_kern.c:224-242 | the stored path header with its index lowered by one, and none where the index is zero |
| Stages.Node.Reencapsulate | src/kernel/sfc_stages_kern.c:254-294 | whatever the new room held, the result is Ethernet, the stored NSH with the new path header, and the whole old frame |
| Stages.Node.EncapNsh | src/kernel/sfc_stages_kern.c:175-295 | verdict and frame of every branch: no key, no header, index zero, end of chain, no room, re-encapsulated |
| Stages.Node.SfcForwarding | src/kernel/sfc_stages_kern.c:297-355 | drops without a rule or address, else sets both outer addresses and nothing more |
| Stages.Node.RunEgress | src/utils/cb_agent_helpers.c:112-124 | the forward filter runs exactly where encap left the packet undecided |
| Pipeline.EgressRefinesSpec | src/kernel/sfc_stages_kern.c:210-354 | encap then forward is one decision on the stored header and one lookup of its successor |
| Pipeline.EgressByCase | src/kernel/sfc_stages_kern.c:192-294 | for every frame, whether it leaves untouched, with a new source address, with an NSH, or not at all, by the bytes of the stored header and the flags of the next rule |
| Pipeline.WireFields | src/kernel/sfc_stages_kern.c:270-294 | every byte of what leaves with an NSH |
| Pipeline.ForwardByCase | src/kernel/sfc_stages_kern.c:318-354 | the forward stage on any frame: dropped without rule, with the end flag or without an address, else both addresses replaced |
| Pipeline.ForwardNeverSeesTheEnd | src/kernel/sfc_stages_kern.c:330-339 | the second end-of-chain branch is unreachable behind encap |
| Pipeline.DecapOfWire | src/kernel/sfc_stages_kern.c:109-173 | decap takes every frame of the wire format apart again, unless the next protocol is not Ethernet, then it drops it |
| Pipeline.HopRoundTrip | src/kernel/sfc_stages_kern.c:254-290 | encap, forward and the next decap give back the frame byte for byte and store the header under the same key, index one lower |
| Pipeline.DecapKeepsStored | src/kernel/sfc_stages_kern.c:136-157 | decap only ever stores headers that announce Ethernet |
| Pipeline.VisitDecrements | src/kernel/sfc_stages_kern.c:224-243 | a visit that sends a packet on had a nonzero index, keeps the path id, lowers the index by one and carries the function's output |
| Pipeline.LoopFreedom | src/kernel/sfc_stages_kern.c:224-243 | along any sequence of nodes with any tables the path id stays and the index falls by one a visit, so there are at most as many visits as the first index says |
| Pipeline.ExhaustedIndex | src/kernel/sfc_stages_kern.c:229-232 | at index zero no table makes a node send the packet on |
| Pipeline.FullTableEndsTheChain | src/kernel/sfc_stages_kern.c:156-160 | for every frame decap accepts, the header is stored exactly if the key is known or a slot is free; if not, the packet leaves the chain as plain traffic |
| Classifier.ClassifierNode.Classify | src/kernel/sfc_classifier_kern.c:56-168 | outcome and frame of every branch, for the TC and the XDP build |
| Classifier.ClassifierNode.MakeRoom | src/kernel/sfc_classifier_kern.c:101-147 | both ways of opening room leave EtherType, room and the whole original frame behind the outer addresses |
| Classifier.BuildsAgree | src/kernel/sfc_classifier_kern.c:107-161 | the TC and the XDP build, run on equal frames and tables, agree on every frame but for the sixteen unset context bytes, which are what the room held there |
| Classifier.NoRuleIsEgress | src/kernel/sfc_classifier_kern.c:73-97 | without a rule for the flow the classifier behaves as the egress stages of a node without headers |
| Classifier.NoRuleFields | src/kernel/sfc_classifier_kern.c:92-97 | a frame of a flow without a rule leaves with nothing but its source address changed, one without a flow untouched |
| Classifier.RuleFields | src/kernel/sfc_classifier_kern.c:116-161 | every byte of what leaves for a flow with a rule, which is lost exactly without room or address |
| Config.BuildIndex | src/control/cbox/definitions.go:65-84 | looking a name up through the index gives the last instance declared with that tag |
| Config.FindSound | src/control/cbox/definitions.go:78-84 | a name is found exactly if some instance has that tag, and the instance found has it |
| Config.LastInstanceCounts | src/control/cbox/definitions.go:70-73 | of several instances with one tag the last is found |
| Config.LocalDeclared | src/control/cbox/definitions.go:45-51 | with unique tags a node is local exactly if it is declared not to be remote |
| Config.IpRoundTrip | src/control/cbox/definitions.go:112-123 | ip2int and int2ip are inverse, up to dropping the prefix of a 16-byte address |
| Manager.SphFields | src/control/cbox/manager.go:85-87 | up to position 254 the key is the low 24 id bits and the index side by side |
| Manager.SphInjective | src/control/cbox/manager.go:85-87 | up to position 254 two keys coincide exactly if the low 24 id bits and the positions do |
| Manager.SphBeyondIndexSpace | src/control/cbox/manager.go:85-87 | at positions 255 to 510 the key does not depend on the chain |
| Manager.SphParts | src/control/cbox/manager.go:85-87 | at every position the low byte is that of the wrapped index, and the upper bits are those of id and wrapped index together |
| Manager.IdsApartExactly | src/control/cbox/manager.go:85-87 | the keys of one position tell all 24-bit ids apart exactly where the wrapped index fits a byte, that is, up to position 254 until the position itself wraps |
| Manager.KeysDifferExactly | src/control/cbox/definitions.go:89-90 | the keys of the first n positions of all 24-bit ids are all different exactly if n is at most 255 |
| Manager.AddFwdRule | src/control/cbox/manager.go:88-108 | appends the rule of a position to its node's list where no direct link leads on, and dies on a nil instance exactly where it looks into one |
| Manager.AddProxyRules | src/control/cbox/manager.go:135-145 | appends one rule per flow with the index the missing decap would have stored; fails exactly if a flow does not parse |
| Manager.CompileChain | src/control/cbox/manager.go:84-149 | the lists of all nodes grow by exactly the rules of the chain, in order; dies exactly under ChainPanics |
| Manager.PanicCases | src/control/cbox/manager.go:88-139 | generation dies over undeclared nodes of longer chains and over flows that do not parse where proxy rules are needed, and over nothing else |
| Manager.MergeRules | src/control/cbox/manager.go:155-165 | a configuration for each node with forwarding rules, holding both its lists |
| Manager.InstallConfiguration | src/control/cbox/manager.go:61-168 | unreachable exactly if a declared node has no agent, panics exactly if some chain does, else sends each node exactly its rules |
| Manager.PickMultiplicity | src/control/cbox/manager.go:104-148 | a node's list holds each rule as often as it was generated for that node |
| Rules.FwdRulesExact | src/control/cbox/manager.go:90-108 | a node's forwarding rules are those of its positions without a direct link onwards, and no others |
| Rules.AddressKnown | src/control/cbox/manager.go:96-106 | once every declared node has an agent, a rule towards a declared node has the address its agent reported |
| Rules.ProxyRulesExact | src/control/cbox/manager.go:128-148 | a node's proxy rules are those of the listed flows where it ends a run of direct links, and no others |
| Rules.MergeLosesNothing | src/control/cbox/manager.go:155-165 | a node with a proxy rule also has a forwarding rule, so the merge over forwarding rules skips nobody |
| Rules.RulesDelivered | src/control/cbox/manager.go:104-165 | every generated rule reaches its node as often as it was generated |
| Agent.StartAgent | src/control/cbox/agent.go:28-125 | omitted directions get no address; the address reported is the one the ingress stage compares with, or zero |
| Agent.AddFwdRule | src/utils/cb_agent_helpers.c:141-147 | the rule is stored under the network-order key unless the map is full |
| Agent.AddProxyRule | src/utils/cb_agent_helpers.c:149-168 | a default NSH with the given path header is stored under the network-order 5-tuple; the sixteen bytes behind the 8-byte header are arbitrary |
| Agent.HandleInstall | src/control/cbox/agent.go:161-186 | the two maps after all rules of a message, in order, errors ignored |
| Agent.InstallEntries | src/control/cbox/agent.go:164-183 | if all keys fit, every key of the message gets one of its entries and other entries stay |
| Agent.LastEntryStays | src/utils/cb_agent_helpers.c:141-146 | of several entries for one key the last one stays |
| Agent.InstallOrderIndependent | src/control/cbox/agent.go:164-173 | entries with one value per key give the same table in any order and with any repetition |
| Agent.FlowKeyAgreement | src/headers/cb_helpers.h:46-76 | the key installed for a TCP, UDP or ICMP flow is the key read from its option-free packets, exactly if an ICMP flow is listed with zero ports |
| Agent.IpipKey | src/headers/cb_helpers.h:36-78 | wrapping a packet in one IP-in-IP header keeps its key exactly for ICMP, or where the ports repeat the first four header bytes |
| Agent.StoredAlways | src/kernel/sfc_stages_kern.c:136-157 | over any history of arrivals and installations all stored headers announce Ethernet |
| Agent.NextDecapAccepts | src/kernel/sfc_stages_kern.c:136-138 | whatever a node sends on after any history, the addressed node accepts and unpacks to the same frame |
| Deployer.PlanChain | src/control/cb_deploy.go:567-596 | one chain's links extend the plan in order, or its loop stops at a nil instance before any shared node, or at a shared node before any nil instance |
| Deployer.PlanLinks | src/control/cb_deploy.go:557-597 | dies exactly if some step looks into a nil instance while the links before it are in order; accepts exactly if no step does and no two links leave or enter the same node; then the links of all chains are numbered in order |
| Deployer.NilCases | src/control/cb_deploy.go:569-573 | a step dies exactly over an undeclared node it comes from, or leads to from a local one |
| Deployer.PlanStep | src/control/cb_deploy.go:574-590 | the two map checks detect exactly the links that share an end, and the global number keeps the ends paired |
| Deployer.AllLinksMember | src/control/cb_deploy.go:568-573 | the links are those between consecutive local nodes, and no others |
| Agreement.UniqueLinks | src/control/cb_deploy.go:574-586 | in an accepted plan two direct hops share neither their upstream nor their downstream node |
| Agreement.PlanNames | src/control/cb_deploy.go:618-650 | a node runs without egress (ingress) stages exactly if a direct link leaves (enters) it at some position |
| Agreement.PlanPairsEnds | src/control/cb_deploy.go:100-112 | the link a node was given leads to the next node of its chain and to no other |
| Agreement.AgreementCondition | src/control/cb_deploy.go:599-604 | deployer and manager agree at every position exactly if no node with a direct link stands at another position |
| Agreement.StagesMatchRules | src/control/cbox/manager.go:102-148 | then egress stages are missing exactly where there is no forwarding rule, and one proxy rule per flow exists exactly where only the ingress stage is missing |
| Agreement.DeployerAcceptsSharedNode | src/control/cb_deploy.go:574-586 | a concrete configuration, with every instance declared, that the planning loops accept and in which every accepted plan contradicts the manager |
| Tables.KeyNamesPosition | src/control/cbox/definitions.go:89-90 | with the two unchecked limits and distinct ids, a key names one chain position |
| Tables.CompiledInstallOrderIndependent | src/control/cbox/agent.go:164-173 | any listing of a node's compiled rules gives the same forwarding table |
| Tables.FwdTableAt | src/control/cbox/manager.go:104-108 | a position's encap lookup finds its own rule in the installed table: the next node's address, or the end flag |
| Tables.ProxyTableSound | src/control/cbox/manager.go:128-148 | an installed proxy entry belongs to the one position that needs it and has that position's path id and index |
| Tables.ProxyTableComplete | src/control/cbox/manager.go:135-145 | each listed flow has its entry where one is needed |
| Safety.ReceiveOne | src/kernel/sfc_stages_kern.c:93-173 | a frame on its way to a position can only be received by that position's node, which stores its header and unpacks it |
| Safety.EncapOne | src/kernel/sfc_stages_kern.c:210-294 | with its position's header stored, encap ends the chain at the last node and elsewhere puts on the next position's header |
| Safety.ForwardOne | src/kernel/sfc_stages_kern.c:330-354 | forward addresses that frame to the next node |
| Safety.ServedOk | src/control/cb_deploy.go:588-590 | after the function, direct link or egress stages take the packet to its next position |
| Safety.StoreKeepsHeaders | src/kernel/sfc_stages_kern.c:156-160 | storing one flow's header leaves the headers of every other flow in place, and its own unless its chain comes back to a node |
| Safety.ReceiveTables | src/kernel/sfc_stages_kern.c:156-160 | storing a header at a node with an ingress stage leaves every installed proxy entry in place, and every entry of a straight chain in position |
| Safety.StepIntact | src/kernel/sfc_stages_kern.c:55-355 | whatever way a packet goes, every step leaves it the frame the functions made, under the key of its flow |
| Safety.OwnMove | src/kernel/sfc_stages_kern.c:55-355 | a packet on its chain stays on it through every move of its own, whatever other packets there are |
| Safety.Bystander | src/kernel/sfc_stages_kern.c:156-160 | a packet on its chain stays on it while others move, unless one of its own flow is under way and the chain comes back to a node |
| Safety.InitialKeeps | src/control/cbox/agent.go:161-186 | the invariant holds once the agents have installed their rules |
| Safety.StepKeeps | src/kernel/sfc_stages_kern.c:55-355 | every step of classifier, node, link or medium keeps the invariant of all runs |
| Safety.RunKeeps | src/kernel/sfc_stages_kern.c:55-355 | the invariant holds in every state of every interleaving of any packets |
| Safety.FlightKeeps | src/kernel/sfc_stages_kern.c:156-160 | an undisturbed packet is where its visits say, with its position's header stored, in every state of every run |
| EndToEnd.PathSafety | src/control/cbox/manager.go:84-150 | in every state of every run, no stage has dropped an undisturbed packet, it has passed a prefix of its chain, and if it left it has passed all of it and is what the functions made of it |
| EndToEnd.StoredHeadersInPosition | src/kernel/sfc_stages_kern.c:156-160 | in every reachable state a flow's header stored at position i has the chain's id and index 255 - i, unless the chain comes back to a node |
| EndToEnd.EveryMoveAdvances | src/kernel/sfc_stages_kern.c:55-355 | any move of a packet on its chain lowers a measure of what is before it and does not lose it |
| EndToEnd.NeverStuck | src/kernel/sfc_stages_kern.c:55-355 | a packet on its chain and under way always has a next move |
| EndToEnd.Completes | src/kernel/sfc_stages_kern.c:55-355 | from every reachable state a packet on its chain can be brought to any function ahead of it and out of its chain, within the measure, while all others rest |
| EndToEnd.CompilationCorrect | src/control/cbox/manager.go:84-150 | from every reachable state, whatever else is under way, a classified frame can go through exactly the chain's nodes in order and leave the last as the functions' output with only the source address changed |
| EndToEnd.MovesBounded | src/kernel/sfc_stages_kern.c:55-355 | in every run, the moves an undisturbed packet has made and those before it stay within three a chain node, and one |
| EndToEnd.EveryRunArrives | src/control/cbox/manager.go:84-150 | in every run, an undisturbed packet that can make no further move has visited its chain's nodes in order and left the last with only the source address changed, unless it was lost |
| EndToEnd.TransparentChain | src/kernel/sfc_stages_kern.c:245-251 | with functions that change nothing the original frame comes out, but for the source address |
| Returning.InstalledIsInitial | src/control/cbox/agent.go:161-186 | the state after all installations is one that runs start from |
| Returning.CanBeOvertaken | src/kernel/sfc_stages_kern.c:156-160 | on every chain that comes back to a node, a run of two packets has one waiting at the second visit and the header of the first visit stored there |
| Returning.OvertakenPacketStrays | src/kernel/sfc_stages_kern.c:210-290 | four more steps send that packet on to the node after the first visit instead of the one after the second |
| Returning.Strays | src/kernel/sfc_stages_kern.c:156-290 | on every chain that comes back to a node some run takes a packet off its path |
| Returning.ExactlyWithoutReturn | src/kernel/sfc_stages_kern.c:156-160 | in all runs all packets of a flow stay on their path, with their headers in place, exactly if the flow's chain comes back to no node |
| Example.HypothesesMet | test/chains-config/test-proxy-rules.json:1-93 | the hypotheses of the network theorems hold together for this configuration and a flow of each of its chains |
| Example.PingGoesThrough | test/chains-config/test-proxy-rules.json:1-45 | any frame of its first flow visits sf1 to sf4, over a link and two wires, and leaves sf4 with only its source address changed |
| Example.StarStrays | test/chains-config/gen-star-tests.sh:12-35 | the smallest generated star meets the hypotheses, and some run takes a packet off its path |
| Example.ScriptEntries | test/config-cls.sh:13-23 | the key and path header bytes the script writes are those of the model; the key's ports are 10000 and 20000, where the script's comment has 1000 and 2000 |
| Words.ValueOfWord | src/functions/chacha/chacha_kern.c:63-64 | counting a 32-bit word up is arithmetic modulo 2^32 |
| ChaCha.HalfLine | src/functions/chacha/chacha_kern.c:70-74 | one half line changes its two words as the round function says and no other |
| ChaCha.QuarterRound | src/functions/chacha/chacha_kern.c:70-74 | the eight assignments are the quarter round on four words of the matrix |
| ChaCha.QuarterBijective | src/functions/chacha/chacha_kern.c:70-74 | the quarter round has a two-sided inverse |
| ChaCha.QuarterVector | src/functions/chacha/chacha_kern.c:70-74 | the test vector of section 2.1.1 of RFC 8439 |
| ChaCha.RoundsBijective | src/functions/chacha/chacha_kern.c:100-111 | any number of double rounds is a bijection on sixteen words |
| ChaCha.DoubleByQuads | src/functions/chacha/chacha_kern.c:101-111 | a double round is a quarter round down each column, the rows turned by 0 to 3 places, again down each column, and turned back |
| ChaCha.FeedForward | src/functions/chacha/chacha_kern.c:113-121 | each four key stream bytes are a word, little-endian, that less the rounds' word is the input's word |
| ChaCha.DoubleRounds | src/functions/chacha/chacha_kern.c:90-122 | for even and odd round numbers, the rounds of the input plus the input, as little-endian bytes |
| Cipher.Context.Next | src/functions/chacha/chacha_kern.c:196-231 | one block is combined with the key stream of the old state, and the counter advances |
| Cipher.CounterEncodes | src/functions/chacha/chacha_kern.c:203-207 | after n blocks words 12 and 13 hold n modulo 2^64 and the other words are unchanged |
| Cipher.InitLayout | src/functions/chacha/chacha_kern.c:167-185 | the words of a fresh context: the constants, the key words twice, a zero counter, the iv |
| CipherVectors.FirstBlock | src/functions/chacha/chacha_kern.c:90-122 | the 64 bytes of the first key stream block with a zero key and iv, as published for ChaCha8 with a 128-bit key |
| Cipher.DistinctInputs | src/functions/chacha/chacha_kern.c:203-207 | two blocks have the same cipher input exactly if their numbers agree modulo 2^64 |
| Cipher.Xor64Bytewise | src/functions/chacha/chacha_kern.c:222-230 | a 64-bit XOR is the XOR of its eight bytes |
| Cipher.XorWord | src/functions/chacha/chacha_kern.c:225-230 | the in-place word update changes exactly its eight bytes |
| Cipher.XorBlock | src/functions/chacha/chacha_kern.c:222-230 | the eight updates are a byte-by-byte XOR of the block |
| Cipher.EncryptPayload | src/functions/chacha/chacha_kern.c:397-430 | the loop combines the whole blocks of the payload, at most 24, with consecutive key stream |
| Cipher.CipherInvolution | src/functions/chacha/chacha_kern.c:416-430 | running it twice restores every frame, and nothing beyond the first 64 * min(24, len / 64) payload bytes changes |
| Cipher.PayloadByte | src/functions/chacha/chacha_kern.c:419-430 | each byte of the first 64 * min(24, len / 64) payload bytes is combined with its own byte of the key stream of its block's counter |
| Cipher.BlocksDistinct | src/functions/chacha/chacha_kern.c:203-207 | no two blocks of a packet use the same cipher input |
| Checksum.SumHeader | src/functions/chacha/chacha_kern.c:386-390 | the sum of the ten words is exact and below 2^20 |
| Checksum.SingleFoldCondition | src/functions/chacha/chacha_kern.c:386-391 | the stored checksum verifies by section 1 of RFC 1071 exactly if the one fold stays below 2^16 |
| Tunnel.ParseIp | src/functions/chacha/chacha_kern.c:282-347 | which frames are refused or ignored, and where the payload of an accepted one starts |
| Tunnel.TunnelTakes | src/functions/chacha/chacha_kern.c:293-347 | which frames are taken and which are not the tunnel's business, and where the payload starts, with the mask 65343 on the loaded fragment field |
| Tunnel.BuildOuter | src/functions/chacha/chacha_kern.c:372-393 | the outer header, with its length modulo 2^16 and its check field |
| Tunnel.OuterFields | src/functions/chacha/chacha_kern.c:372-384 | every field of the outer header but the checksum: length, TTL 8, IP-in-IP, source and destination as inside |
| Tunnel.Cha | src/functions/chacha/chacha_kern.c:282-465 | a packet is sent on exactly if accepted, given room, long enough and a port is set; then it is the wrapped and enciphered frame |
| Tunnel.OuterVerifies | src/functions/chacha/chacha_kern.c:372-391 | when the outer header of a frame verifies, for all frames |
| Tunnel.OuterThatFails | src/functions/chacha/chacha_kern.c:386-391 | concrete addresses and length for which it does not |
| Tunnel.DecapIpip | src/kernel/remove-ipip.c:36-120 | verdict and frame of every branch, echo requests turned into replies |
| Tunnel.UnwrapLeavesOthers | src/kernel/remove-ipip.c:49-67 | frames that are not IP-in-IP are passed up as they are |
| Tunnel.UnwrapFields | src/kernel/remove-ipip.c:71-105 | of an IP-in-IP frame the outer header goes; an echo request inside is answered, all else passed up |
| Tunnel.ReplyFields | src/kernel/remove-ipip.c:109-119 | addresses exchanged, type 0, checksum zero, identifier and payload kept, fixed Ethernet addresses |
| Tunnel.TunnelRoundTrip | src/functions/chacha/chacha_kern.c:349-430 | decap_ipip after the tunnel gives back every byte in front of the payload and the enciphered payload, from which one more cipher run restores the frame |
| Tunnel.TunnelFlowKey | src/headers/cb_helpers.h:36-78 | the tunnel keeps the flow key exactly for ICMP, or where the ports repeat the first four header bytes |
| Jhash.Jhash | src/functions/l4lb/jhash.h:68-105 | the block loop and the fall-through switch compute the byte hash, for every length |
| Jhash.LastBlock | src/functions/l4lb/jhash.h:86-102 | falling through from any length adds exactly the bytes that are there |
| Jhash.Jhash2 | src/functions/l4lb/jhash.h:114-142 | the loop and switch over words compute the word hash |
| Jhash.HashesAgree | src/functions/l4lb/jhash.h:76-142 | from any state, hashing little-endian bytes of words is hashing the words |
| Jhash.VariantsAgree | src/functions/l4lb/jhash.h:68-142 | jhash over the bytes of an array equals jhash2 over its words |
| Jhash.FixedAgree | src/functions/l4lb/jhash.h:146-170 | jhash_1word, jhash_2words and jhash_3words equal jhash2 on arrays of their length |
| Jhash.MixBijective | src/functions/l4lb/jhash.h:33-41 | the mix has a two-sided inverse |
| Jhash.TailPadded | src/functions/l4lb/jhash.h:86-102 | the last block counts as the three words its bytes make with zeros behind them; an empty one is not mixed |
| HashVectors.OneWord | src/functions/l4lb/jhash.h:43-52 | the hash of one zero word is 0x049396b8 |
| HashVectors.FourWords | src/functions/l4lb/jhash.h:114-142 | the hash of four zero words, through one block, is 0xbaf9078c |
| HashVectors.FiveWords | src/functions/l4lb/jhash.h:114-142 | the hash of the words 1 to 5 is 0x629129c0 |
| HashVectors.FourScoreAndSeven | src/functions/l4lb/jhash.h:33-105 | jhash of "Four score and seven years ago" with initial value 1 is 0xcd628161, as in the self-test of the original lookup3.c |

## Left out

- Tunnel.Cha: does not say what is left of a packet that is dropped, because nobody sees it.
- NSH conformance: the code announces MD type 2 with length 2 and always moves 24 bytes, and never lowers the TTL; no claim about lengths or TTL of RFC 8300 is made.
- Functions that drop packets are packets that vanish; functions that send several packets for one, or packets of their own, are not modelled.
- The addresses of the deployments in Example: configurations do not fix them, so they are made up.
- Kernel helpers that fail: the room helper's outcome is a parameter of the programs; in the network model such a packet vanishes. `src_mac` is a kernel array, whose slots always exist; the model keeps the code's branches for a missing slot.
- Rule changes and new installations while packets are under way, except in Agent.StoredAlways.
- The text of IP addresses: a flow holds the result of `net.ParseIP`. Link names are a number and an end, not strings.
- Docker, OVS, veth creation, the choice of default interfaces per network type.
- Messages between manager and agents, connection retries, concurrent handling of messages, sending to a node without connection.
- Loading, attaching and pinning of programs and maps, the map inspector, counters and debug output.
- The redirect programs, the VPN function, the flow monitor, the load balancer around the hash and the firewalls: short programs that would add easy members only.
- Time, scheduling and fairness: EndToEnd.EveryRunArrives speaks of packets that can make no further move; that a packet which can move is moved at some time is not part of the model.
