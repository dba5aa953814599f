# A verified model of the Quagga BGP daemon's protocol state

The project models the core of `bgpd`: the algebra of AS paths, the synchronisation of
Adj-RIB-Out with a neighbour, the multipath list of a route, hash-consed attributes, the parser
of path attributes, the session state machine, route flap damping, the OPEN exchange and
community lists. Each part is a specification on values, the theorems about it, and the
operations as the C code performs them, with loops, in-place updates, linked chains and buffers,
proved against the specification.

| file | content |
|---|---|
| `Options.dfy`, `Sequences.dfy`, `Ordering.dfy`, `Wire.dfy`, `Text.dfy` | options, lists without repeats, sorted lists, big-endian numbers, decimal text and buffers |
| `AsPath.dfy` | segments, normalisation, meaning of a path, hop and loop counts |
| `AsPathWire.dfy` | AS_PATH on the wire |
| `AsPathAs4.dfy` | four-octet AS numbers across two-octet speakers (section 4.2 of RFC 6793) |
| `AsPathAggregate.dfy`, `AsPathMpath.dfy` | the two aggregation merges (section 9.2.2.2 of RFC 4271) |
| `AsPathText.dfy` | printing, tokenising and parsing |
| `AdjRibOut.dfy` | pending advertisements, the two queues and the messages built from them |
| `Multipath.dfy` | the incremental multipath walk over doubly linked chains |
| `Intern.dfy` | two levels of sharing and reference counting |
| `AttrFrame.dfy`, `AttrParse.dfy`, `AttrReader.dfy` | attribute blocks: framing, verdicts, and the handlers on the input stream (section 4.3 of RFC 4271) |
| `PeerStatus.dfy`, `Fsm.dfy` | the session state machine and the clearing of routes (section 8 of RFC 4271) |
| `Damping.dfy`, `DampingLinks.dfy`, `DampingTable.dfy` | penalties, reuse lists, scan and timer (section 4.8 of RFC 2439): on lists, the links, and the steps as coded |
| `Open.dfy` | connection collision (section 6.8 of RFC 4271) and capabilities |
| `Communities.dfy`, `CommunityText.dfy` | canonical lists, matching, filtering and text |

Some properties one would expect do not hold of the code as it is. For these the project has the
failing input and the exact condition under which the property holds:

- a path comes back from the wire: `AsPathWire.WireRoundTrip`, `AsPathWire.Put` and
  `AsPathWire.PackedLength`, with `AsPathWire.PackMiscounts`;
- multipath aggregation stays in bounds, keeps all AS numbers and keeps the length:
  `AsPathMpath.MpathDefined`, `AsPathMpath.MpathUnion` and `AsPathMpath.MpathLength`, with
  `AsPathAggregate.MpathReadsPastEnd`, `AsPathMpath.MpathLosesNumber` and
  `AsPathMpath.MpathShortens`;
- the next hop comparison is an order: `Multipath.NextHopCmpTurnsRound` and
  `Multipath.NextHopCmpOrders`, with `Multipath.NextHopCmpMisleads`;
- an internal verdict stays internal: `AttrParse.NotifyEscapesWhen` and `AttrParse.BlockStops`,
  with `AttrParse.NotifyEscapes`;
- completion events come when they are due: `Fsm.RunOrderly` and `Fsm.RunBalance`, with
  `Fsm.PartialClearBreaks`;
- damping records stay on their lists: `DampingTable.TimerExact` and `DampingTable.RunExact`, with
  `DampingTable.RecordIsLost` and `DampingTable.RecordIsLostInTime`; penalties stay below the
  ceiling: `Damping.CeilingExact`.

Modelling choices: AS numbers and addresses are integers or octet sequences with explicit 16- and
32-bit ranges and wrap-around where the code computes with them; clocks, room left in a message,
the outcome of connecting and the presence of routes to clear are parameters; hash tables are
used through the contract "find an equal element or insert".

## Model

| member | source | states |
|---|---|---|
| `AsPath.Normalise` | SDNFV_FINAL/quagga/bgpd/bgp_aspath.c:255-318 | the in-place loop (pin, sort and weed sets, fold following plain sequences) yields exactly the recursive normal form `Norm` |
| `AsPath.WeedDuplicates` | SDNFV_FINAL/quagga/bgpd/bgp_aspath.c:279-291 | weeding a sorted array in place leaves, in its first `length` cells, the strictly ascending list of its values |
| `AsPath.SortSetSegment` | SDNFV_FINAL/quagga/bgpd/bgp_aspath.c:268-292 | sorting and weeding a set segment gives the one ascending list of its members |
| `AsPath.FoldPackable` | SDNFV_FINAL/quagga/bgpd/bgp_aspath.c:294-315 | folding the plain sequences behind the pin keeps everything before it and the normal form of the rest, and leaves nothing to fold |
| `AsPath.NormMeaning` | SDNFV_FINAL/quagga/bgpd/bgp_aspath.c:255-318 | normalising never changes what a path means: hops of plain sequences, sets as sets, confederation runs |
| `AsPath.NormIsRebuild` | SDNFV_FINAL/quagga/bgpd/bgp_aspath.c:255-318 | the normal form is the path rebuilt from the meaning alone if and only if every run of adjacent plain sequences holds a number |
| `AsPath.NormCanonical` | SDNFV_FINAL/quagga/bgpd/bgp_aspath.c:255-318 | two paths all of whose runs of plain sequences hold a number have the same meaning if and only if their normal forms are equal |
| `AsPath.NormNoEmpty` | SDNFV_FINAL/quagga/bgpd/bgp_aspath.c:255-318 | the normal form has no empty plain sequence if and only if no run of plain sequences of the path is empty |
| `AsPath.CanonicalExact` | SDNFV_FINAL/quagga/bgpd/bgp_aspath.c:255-318 | a path has the normal form of all paths without empty plain sequences that mean the same, if and only if none of its own runs is empty |
| `AsPath.NormIsNormal` | SDNFV_FINAL/quagga/bgpd/bgp_aspath.c:255-318 | the result has sorted sets without repeats and no two adjacent plain sequences |
| `AsPath.NormFixed` | SDNFV_FINAL/quagga/bgpd/bgp_aspath.c:255-318 | a normal path is left alone |
| `AsPath.NormIdempotent` | SDNFV_FINAL/quagga/bgpd/bgp_aspath.c:255-318 | normalising twice is normalising once |
| `AsPath.NormKeepsHops` | SDNFV_FINAL/quagga/bgpd/bgp_aspath.c:429-445 | normalising preserves the hop count |
| `AsPath.HopCountIsMeaning` | SDNFV_FINAL/quagga/bgpd/bgp_aspath.c:429-445 | the hop count is a function of the meaning: one for each hop and each plain set, none for confederation items |
| `AsPath.NormKeepsAsns` | SDNFV_FINAL/quagga/bgpd/bgp_aspath.c:1244-1266 | normalising preserves the set of AS numbers found by the loop check |
| `AsPath.CountHops` | SDNFV_FINAL/quagga/bgpd/bgp_aspath.c:429-445 | the loop over segments computes the hop count |
| `AsPath.LoopCheck` | SDNFV_FINAL/quagga/bgpd/bgp_aspath.c:1244-1266 | the count is how often the AS number occurs, and positive if and only if it is in the path |
| `AsPath.Compare` | SDNFV_FINAL/quagga/bgpd/bgp_aspath.c:1994-2016 | the segment-by-segment comparison is equality of paths |
| `AsPathWire.PutFullChunks` | SDNFV_FINAL/quagga/bgpd/bgp_aspath.c:900-907 | writing a long segment in chunks of 255: the octets are those of the chunks re-read from the start of the segment, and the returned size is exact if and only if there are at most 510 AS numbers |
| `AsPathWire.PackFollowing` | SDNFV_FINAL/quagga/bgpd/bgp_aspath.c:914-941 | exactly the following plain sequences that fit beside the first share its chunk, with the length octet patched as coded |
| `AsPathWire.Put` | SDNFV_FINAL/quagga/bgpd/bgp_aspath.c:874-945 | the returned count is never below the octets written, and equal to it if and only if no segment exceeds 510 AS numbers; the octets are those of the writer's turns, which for a normal path are its segments |
| `AsPathWire.PackedLength` | SDNFV_FINAL/quagga/bgpd/bgp_aspath.c:929-934 | when following sequences share a chunk its length octet is right if and only if those between the first and the last are empty |
| `AsPathWire.PackMiscounts` | SDNFV_FINAL/quagga/bgpd/bgp_aspath.c:929-934 | three short sequences in a row are written as three numbers under a length of two |
| `AsPathWire.NormalTurns` | SDNFV_FINAL/quagga/bgpd/bgp_aspath.c:874-945 | on a normal path nothing is packed and the turns of the writer are its segments |
| `AsPathWire.Parse` | SDNFV_FINAL/quagga/bgpd/bgp_aspath.c:704-842 | the parser accepts a window exactly when it is a sequence of complete, non-empty, known segments of even total length, and returns their normal form |
| `AsPathWire.WireRoundTrip` | SDNFV_FINAL/quagga/bgpd/bgp_aspath.c:704-945 | for every normal path of non-empty segments, writing and parsing gives it back (32 bits), or its normal form with AS_TRANS for large numbers (16 bits), if and only if plain sequences have at most 510 and other segments at most 255 AS numbers |
| `AsPathWire.RoundTripShort` | SDNFV_FINAL/quagga/bgpd/bgp_aspath.c:704-945 | the same equivalence for every path of non-empty segments with at most 510 AS numbers each, on the written octets |
| `AsPathWire.PathReadsBack` | SDNFV_FINAL/quagga/bgpd/bgp_aspath.c:704-860 | the segments read from the octets are those of the path, cut at 255 and with large numbers replaced |
| `AsPathWire.CutMeaning` | SDNFV_FINAL/quagga/bgpd/bgp_aspath.c:703-798 | cutting at 255 keeps the meaning of a path within the limits and strictly lengthens it otherwise |
| `AsPathWire.ReadCanonical` | SDNFV_FINAL/quagga/bgpd/bgp_aspath.c:703-798 | whatever the octets, two paths that were read mean the same if and only if they are identical: the parser refuses empty segments and normalises |
| `AsPathAs4.ReconcileAs4` | SDNFV_FINAL/quagga/bgpd/bgp_aspath.c:1610-1704 | the merge loop computes the reference reconciliation |
| `AsPathAs4.CopyHops` | SDNFV_FINAL/quagga/bgpd/bgp_aspath.c:1644-1688 | copying the leading hops takes whole segments and a leading part of a plain sequence |
| `AsPathAs4.CountConfeds` | SDNFV_FINAL/quagga/bgpd/bgp_aspath.c:411-427 | the loop counts confederation segments as the reference does |
| `AsPathAs4.ReconciledMeaning` | SDNFV_FINAL/quagga/bgpd/bgp_aspath.c:1610-1704 | for confederation-free paths the result means the surplus leading items of AS_PATH followed by AS4_PATH |
| `AsPathAs4.ReconcileKeepsHops` | SDNFV_FINAL/quagga/bgpd/bgp_aspath.c:1610-1704 | with at least as many hops in AS_PATH the result has exactly its hop count; otherwise the sum of both |
| `AsPathAs4.ReconcileKeepsAsns` | SDNFV_FINAL/quagga/bgpd/bgp_aspath.c:1244-1266 | no AS number of AS4_PATH is lost and none is invented, for all inputs; nothing is lost at all when AS_PATH is the shorter |
| `AsPathAs4.ReconcileRestores` | SDNFV_FINAL/quagga/bgpd/bgp_aspath.c:1610-1704 | prepending two-octet numbers to the narrowed path and reconciling with the original gives these numbers followed by the original |
| `AsPathAs4.HasAs4` | SDNFV_FINAL/quagga/bgpd/bgp_aspath.c:500-514 | true if and only if some AS number needs four octets |
| `AsPathAs4.DeleteConfedSeq` | SDNFV_FINAL/quagga/bgpd/bgp_aspath.c:1730-1759 | only leading confederation segments are removed, all of them if the first is a sequence, and a confederation-free path is unchanged |
| `AsPathAs4.EncodeForOldPeer` | SDNFV_FINAL/quagga/bgpd/bgp_attr.c:2748-2840 | a path goes to a two-octet peer as its 16-bit form, with AS4_PATH (without leading confederation segments) and AS4_AGGREGATOR exactly when they are needed; the lengths are exact if and only if no segment exceeds 510 AS numbers |
| `AsPathAs4.MungeAs4` | SDNFV_FINAL/quagga/bgpd/bgp_attr.c:1453-1557 | which of AS_PATH, AS4_PATH, AGGREGATOR and AS4_AGGREGATOR win, for every combination and peer kind |
| `AsPathAs4.CrossOldSpeaker` | SDNFV_FINAL/quagga/bgpd/bgp_attr.c:1453-1557 | four-octet numbers survive a two-octet hop: encode, let a two-octet speaker prepend any numbers, parse and reconcile gives those numbers followed by the original path, and the aggregator is recovered |
| `AsPathAggregate.Aggregate` | SDNFV_FINAL/quagga/bgpd/bgp_aspath.c:1015-1102 | the merge loops compute the common head followed by the set of the rest, normalised |
| `AsPathAggregate.CommonHead` | SDNFV_FINAL/quagga/bgpd/bgp_aspath.c:1033-1073 | the head loop returns the common leading part and where it stopped in both paths |
| `AsPathAggregate.AsSetAdd` | SDNFV_FINAL/quagga/bgpd/bgp_aspath.c:974-1012 | adding to a set segment adds the number once |
| `AsPathAggregate.CollectRest` | SDNFV_FINAL/quagga/bgpd/bgp_aspath.c:1078-1097 | the rest of a path from any position contributes exactly its AS numbers |
| `AsPathAggregate.AggregateIsUnion` | SDNFV_FINAL/quagga/bgpd/bgp_aspath.c:1015-1102 | for all inputs the AS numbers of the aggregate are exactly those of either path |
| `AsPathAggregate.AggregateCommutes` | SDNFV_FINAL/quagga/bgpd/bgp_aspath.c:1015-1102 | the aggregate does not depend on the order of its arguments |
| `AsPathAggregate.AggregateIdempotent` | SDNFV_FINAL/quagga/bgpd/bgp_aspath.c:1015-1102 | aggregating a path of non-empty segments with itself normalises it |
| `AsPathAggregate.AggregateSequences` | SDNFV_FINAL/quagga/bgpd/bgp_aspath.c:1015-1102 | for plain sequences, either of which may be empty, the longest common prefix leads and the remaining numbers form one set |
| `AsPathAggregate.AggregateHops` | SDNFV_FINAL/quagga/bgpd/bgp_aspath.c:1015-1102 | for paths of plain sequences, however cut into segments and including the empty path, the hop count is at most the larger input's |
| `AsPathAggregate.AggregateSetsGrow` | SDNFV_FINAL/quagga/bgpd/bgp_aspath.c:1033-1073 | the limit of that: two one-hop sets that share their first number aggregate to two hops |
| `AsPathAggregate.CommonIsLongest` | SDNFV_FINAL/quagga/bgpd/bgp_aspath.c:1033-1073 | for paths of plain sequences the common head is a common prefix, and the longest one if and only if the first loop ends with a path, stops inside both segments, or at the end of one whose next number is not the other's |
| `AsPathAggregate.CommonStopsAtCut` | SDNFV_FINAL/quagga/bgpd/bgp_aspath.c:1062-1069 | the same numbers cut differently do not match to the end |
| `AsPathAggregate.PlainIsNormal` | SDNFV_FINAL/quagga/bgpd/bgp_aspath.c:255-318 | the paths of plain sequences in normal form are the empty path and single sequences |
| `AsPathAggregate.AggregateMpath` | SDNFV_FINAL/quagga/bgpd/bgp_aspath.c:1108-1224 | the multipath merge as coded, reads past the end of a segment included as `None`, equals its functional form |
| `AsPathAggregate.RunRounds` | SDNFV_FINAL/quagga/bgpd/bgp_aspath.c:1168-1219 | the lock-step loop over what is left of both paths |
| `AsPathAggregate.MpathSequences` | SDNFV_FINAL/quagga/bgpd/bgp_aspath.c:1108-1224 | for single plain sequences the merge stays in bounds if and only if neither is a proper prefix of the other; then position i means the common number or the set of both, and the hop count is the larger of the two |
| `AsPathAggregate.MpathReadsPastEnd` | SDNFV_FINAL/quagga/bgpd/bgp_aspath.c:1168-1180 | two paths of equal hop count on which the code reads past a sequence, because the first sequence of one is a proper prefix of the other's |
| `AsPathMpath.MpathDefined` | SDNFV_FINAL/quagga/bgpd/bgp_aspath.c:1108-1224 | for all paths of non-empty segments the merge is defined if and only if both agree to the end, or its first round reads within both segments and finds a number there; every later round is defined |
| `AsPathMpath.MpathKeeps` | SDNFV_FINAL/quagga/bgpd/bgp_aspath.c:1168-1219 | a defined merge holds exactly the AS numbers of the common head and of what follows the position where the first loop stopped |
| `AsPathMpath.MpathUnion` | SDNFV_FINAL/quagga/bgpd/bgp_aspath.c:1108-1224 | a defined merge holds exactly the AS numbers of either path if and only if the first loop stopped at a pair it compared, or each number that the carried match count passes over stands elsewhere as well |
| `AsPathMpath.MpathLosesNumber` | SDNFV_FINAL/quagga/bgpd/bgp_aspath.c:1157-1169 | a match count that is not reset makes the merge lose the first number of a set |
| `AsPathMpath.MpathHops` | SDNFV_FINAL/quagga/bgpd/bgp_aspath.c:1168-1219 | a defined merge has the hops of the common head plus one for each round, as many rounds as the side with more of them takes |
| `AsPathMpath.MpathLength` | SDNFV_FINAL/quagga/bgpd/bgp_aspath.c:1108-1224 | without confederation segments a defined merge is as long as the longer path if and only if two compared sets do not share a first number, and a carried match count is not taken off the longer path |
| `AsPathMpath.MpathShortens` | SDNFV_FINAL/quagga/bgpd/bgp_aspath.c:1157-1169 | a match count that is not reset makes the merge shorter than the longer path |
| `AsPathText.MakeString` | SDNFV_FINAL/quagga/bgpd/bgp_aspath.c:517-621 | every piece of text fits the buffer where it is written, the final length is below the size, and the buffer holds the printed path and a zero, for every segment list |
| `AsPathText.EmitSegment` | SDNFV_FINAL/quagga/bgpd/bgp_aspath.c:573-609 | a segment and its delimiters fit eleven characters for each number plus four |
| `AsPathText.GetToken` | SDNFV_FINAL/quagga/bgpd/bgp_aspath.c:1847-1910 | the tokeniser returns the first token of the reference lexer and leaves the rest |
| `AsPathText.ReadNumber` | SDNFV_FINAL/quagga/bgpd/bgp_aspath.c:1889-1904 | a run of digits is read with 32-bit wrap-around |
| `AsPathText.ParseString` | SDNFV_FINAL/quagga/bgpd/bgp_aspath.c:1912-1976 | the parser loop computes the reference parse, with an unknown character rejecting the text |
| `AsPathText.ParseOfPrint` | SDNFV_FINAL/quagga/bgpd/bgp_aspath.c:517-621 | parsing the text of any path gives its plain sequences run together and nothing else changed |
| `AsPathText.TextRoundTrip` | SDNFV_FINAL/quagga/bgpd/bgp_aspath.c:1912-1976 | a path comes back from its text if and only if it has no empty and no adjacent plain sequences; its meaning always comes back |
| `Text.ValueOfDigits` | SDNFV_FINAL/quagga/bgpd/bgp_aspath.c:1889-1904 | printing a 32-bit number and reading it in 32-bit arithmetic gives it back |
| `Text.AsnLength` | SDNFV_FINAL/quagga/bgpd/bgp_aspath.c:533-547 | a 32-bit number takes at most ten characters |
| `AdjRibOut.Convergence` | SDNFV_FINAL/quagga/bgpd/bgp_advertise.c:182-334 | in every interleaving of set, unset and packet building, the messages sent so far build exactly the table of sent attributes, `scount` is its size, and once both queues are empty (and no advertisement was flushed for lack of room) it is the last request for every prefix |
| `AdjRibOut.HistoryIsLastRequest` | SDNFV_FINAL/quagga/bgpd/bgp_advertise.c:220-320 | the recorded request of a prefix is the last set or unset of the run, and nothing is lost unless a step flushes |
| `AdjRibOut.LostExact` | SDNFV_FINAL/quagga/bgpd/bgp_packet.c:231-239 | a request that is flushed for lack of room is met all the same if and only if the neighbour already held its attribute then, however the run goes on until the prefix is requested again |
| `AdjRibOut.LostStays` | SDNFV_FINAL/quagga/bgpd/bgp_packet.c:231-239 | until it is requested again a lost prefix stays lost and the neighbour keeps what it holds |
| `AdjRibOut.WriterConverges` | SDNFV_FINAL/quagga/bgpd/bgp_packet.c:607-673 | from any reachable state the writer, given any positive room in each packet, empties both queues in at most as many packets as there are pending prefixes, and the neighbour then has what was requested |
| `AdjRibOut.IdleIsConverged` | SDNFV_FINAL/quagga/bgpd/bgp_packet.c:607-673 | with both queues empty the neighbour's table is the requested one, lost prefixes aside |
| `AdjRibOut.ExecInv` | SDNFV_FINAL/quagga/bgpd/bgp_advertise.c:102-334 | every step keeps the structure invariant: each pending prefix on exactly one queue, group reference counts equal to list lengths, queue counts, `scount`, and agreement of messages with sent attributes |
| `AdjRibOut.SetInv` | SDNFV_FINAL/quagga/bgpd/bgp_advertise.c:220-272 | a set request keeps the invariant and makes its attribute the wanted one |
| `AdjRibOut.UnsetInv` | SDNFV_FINAL/quagga/bgpd/bgp_advertise.c:274-320 | an unset request keeps the invariant and makes the prefix unwanted |
| `AdjRibOut.DrainCore` | SDNFV_FINAL/quagga/bgpd/bgp_packet.c:166-280 | the prefixes packed into one UPDATE all belong to the group whose attribute it carries, and exactly they become sent with it |
| `AdjRibOut.FlushCore` | SDNFV_FINAL/quagga/bgpd/bgp_packet.c:231-239 | flushing a group for lack of room sends nothing, shortens the queue, and records every dropped prefix as lost |
| `AdjRibOut.SendUpdateInv` | SDNFV_FINAL/quagga/bgpd/bgp_packet.c:144-305 | building an UPDATE keeps the invariant, leaves the withdraw queue alone and makes progress |
| `AdjRibOut.SendWithdrawInv` | SDNFV_FINAL/quagga/bgpd/bgp_packet.c:357-463 | building a withdraw message keeps the invariant, leaves the update queue alone and makes progress |
| `AdjRibOut.Synchronizer.AdvertiseClean` | SDNFV_FINAL/quagga/bgpd/bgp_advertise.c:182-218 | taking a pending advertisement back: queue, group list, group reference count and queue count, and the next of its group |
| `AdjRibOut.Synchronizer.AdjOutSet` | SDNFV_FINAL/quagga/bgpd/bgp_advertise.c:220-272 | the new state is the one of the reference step, and the invariant holds |
| `AdjRibOut.Synchronizer.AdjOutUnset` | SDNFV_FINAL/quagga/bgpd/bgp_advertise.c:274-320 | the new state is the one of the reference step, and the invariant holds |
| `AdjRibOut.Synchronizer.AdjOutLookup` | SDNFV_FINAL/quagga/bgpd/bgp_advertise.c:164-180 | true if and only if what is pending or sent is an announcement, which for a prefix that was not lost is exactly if its last request is one |
| `AdjRibOut.Synchronizer.AdjOutRemove` | SDNFV_FINAL/quagga/bgpd/bgp_advertise.c:322-334 | removing an adjacency together with whatever is pending for it |
| `AdjRibOut.RemovedKeepsQueues` | SDNFV_FINAL/quagga/bgpd/bgp_advertise.c:322-334 | that keeps both queues, their counts and all groups in order and leaves every other prefix alone |
| `AdjRibOut.Synchronizer.UpdatePacket` | SDNFV_FINAL/quagga/bgpd/bgp_packet.c:144-305 | the message, the queues and the sent attributes after one UPDATE, or after a flush |
| `AdjRibOut.Synchronizer.PackGroup` | SDNFV_FINAL/quagga/bgpd/bgp_packet.c:166-280 | the packing loop equals the recursive drain of a group |
| `AdjRibOut.Synchronizer.FlushGroup` | SDNFV_FINAL/quagga/bgpd/bgp_packet.c:231-239 | the cleaning loop equals the recursive flush |
| `AdjRibOut.Synchronizer.WithdrawPacket` | SDNFV_FINAL/quagga/bgpd/bgp_packet.c:357-463 | the message, the queue and the sent attributes after one withdraw message |
| `AdjRibOut.Synchronizer.PackWithdrawals` | SDNFV_FINAL/quagga/bgpd/bgp_packet.c:377-435 | the packing loop equals the recursive drain of the withdraw queue |
| `Multipath.MpathUpdate` | SDNFV_FINAL/quagga/bgpd/bgp_mpath.c:441-601 | after an update the chain behind the new best path is exactly the from-scratch greedy selection, correctly linked both ways, counted, flagged on exactly its members, with all other paths unlinked; an unreported change means the chain is the old one, and for candidates in list order a reported change means it is not |
| `Multipath.Walk` | SDNFV_FINAL/quagga/bgpd/bgp_mpath.c:496-592 | the ordered two-list walk, with the same claims about chain, count, flags and change |
| `Multipath.Rebuild` | SDNFV_FINAL/quagga/bgpd/bgp_mpath.c:484-600 | walk, count and change flag from the detached old chain |
| `Multipath.Detach` | SDNFV_FINAL/quagga/bgpd/bgp_mpath.c:466-482 | both best paths leave the old chain; what is left stays linked in order |
| `Multipath.PurgeAll` | SDNFV_FINAL/quagga/bgpd/bgp_mpath.c:496-553 | without a best path every old member is unlinked and unflagged |
| `Multipath.DmedDeselect` | SDNFV_FINAL/quagga/bgpd/bgp_mpath.c:609-626 | the chain is taken apart, count and change flag are cleared |
| `Multipath.Enqueue` | SDNFV_FINAL/quagga/bgpd/bgp_mpath.c:312-329 | insertion behind a node: all four links and the flag |
| `Multipath.Dequeue` | SDNFV_FINAL/quagga/bgpd/bgp_mpath.c:336-348 | removal from wherever the node is: neighbours joined, node isolated, flag cleared |
| `Multipath.NextHopCmpTurnsRound` | SDNFV_FINAL/quagga/bgpd/bgp_mpath.c:132-186 | the next hop comparison turns round with its arguments if and only if the two next hops are not of mixed address families; otherwise it says equal one way and different the other |
| `Multipath.NextHopCmpOrders` | SDNFV_FINAL/quagga/bgpd/bgp_mpath.c:132-186 | the comparison is a weak order on next hops that pairwise differ in the IPv4 address, both have no extra part, or have extra parts of one length or both IPv6 |
| `Multipath.NextHopCmpMisleads` | SDNFV_FINAL/quagga/bgpd/bgp_mpath.c:132-186 | no wider condition will do: for any two next hops outside it there is a third with which the comparison contradicts itself |
| `Intern.RunConserves` | SDNFV_FINAL/quagga/bgpd/bgp_attr.c:645-862 | in every run of allocating, freeing, interning and uninterning, the count of each shared part equals the references held directly plus the counts of all stored blocks that point to it; whatever is referenced is allocated and in the hash table, and nothing unreferenced is |
| `Intern.RunShares` | SDNFV_FINAL/quagga/bgpd/bgp_attr.c:538-579 | in every run two stored blocks have equal contents, followed through all pointers, if and only if they are the same block |
| `Intern.InternMeaning` | SDNFV_FINAL/quagga/bgpd/bgp_attr.c:645-704 | interning keeps the contents of the block and of all stored blocks, and returns an existing block exactly when one has the same contents |
| `Intern.UninternUndoesIntern` | SDNFV_FINAL/quagga/bgpd/bgp_attr.c:832-862 | for a block of interned parts, uninterning what interning returned restores every count and both levels of hash tables exactly |
| `Intern.PointerIsValue` | SDNFV_FINAL/quagga/bgpd/bgp_attr.c:538-579 | on interned parts the pointer comparison of the hash table is equality of contents |
| `Intern.NoLeak` | SDNFV_FINAL/quagga/bgpd/bgp_attr.c:832-862 | once every reference has been returned no block and no interned part is left |
| `Intern.RunInv` | SDNFV_FINAL/quagga/bgpd/bgp_attr.c:645-862 | every run keeps the two-level invariant |
| `Intern.InternAttrInv` | SDNFV_FINAL/quagga/bgpd/bgp_attr.c:645-704 | interning a block keeps it, though parts may be new, shared or already counted |
| `Intern.UninternAttrInv` | SDNFV_FINAL/quagga/bgpd/bgp_attr.c:800-862 | dropping one reference to a block, and with it one to each part, keeps it |
| `Intern.InternPartInv` | SDNFV_FINAL/quagga/bgpd/bgp_aspath.c:632-650 | interning a part keeps its value, finds an equal one or stores it, and keeps the counts |
| `Intern.DropPartInv` | SDNFV_FINAL/quagga/bgpd/bgp_aspath.c:340-357 | dropping a reference keeps the counts and frees the part with the last one |
| `Intern.DropUndoesTake` | SDNFV_FINAL/quagga/bgpd/bgp_aspath.c:340-357 | taking a further reference and dropping it changes nothing |
| `Intern.UsesSplit` | SDNFV_FINAL/quagga/bgpd/bgp_attr.c:645-704 | the sum of block counts over a part splits off any one block |
| `Intern.Tables.InternShared` | SDNFV_FINAL/quagga/bgpd/bgp_aspath.c:632-650 | the table update of interning a part equals the reference step and keeps the invariant |
| `Intern.Tables.UninternShared` | SDNFV_FINAL/quagga/bgpd/bgp_aspath.c:340-357 | the table update of dropping a reference equals the reference step and keeps the invariant |
| `Intern.Tables.TakeAll` | SDNFV_FINAL/quagga/bgpd/bgp_attr.c:650-697 | each part in turn is interned or counted once more |
| `Intern.Tables.StoreAttribute` | SDNFV_FINAL/quagga/bgpd/bgp_attr.c:699-703 | the block is found by pointer comparison or stored, and counted |
| `Intern.Tables.InternAttribute` | SDNFV_FINAL/quagga/bgpd/bgp_attr.c:645-704 | the whole update equals the reference step and keeps the invariant |
| `Intern.Tables.UninternSub` | SDNFV_FINAL/quagga/bgpd/bgp_attr.c:800-829 | one reference of each part is dropped |
| `Intern.Tables.UninternAttribute` | SDNFV_FINAL/quagga/bgpd/bgp_attr.c:832-862 | the whole update equals the reference step and keeps the invariant |
| `AttrFrame.FrameIsExact` | SDNFV_FINAL/quagga/bgpd/bgp_attr.c:2146-2359 | a block frames as a list of attributes if and only if it is their exact concatenation |
| `AttrFrame.FrameReads` | SDNFV_FINAL/quagga/bgpd/bgp_attr.c:2146-2226 | the concatenation of any attributes, extended lengths included, frames as exactly these, anywhere in a stream |
| `AttrFrame.FrameWrites` | SDNFV_FINAL/quagga/bgpd/bgp_attr.c:2146-2226 | a block that frames is the concatenation of what was read |
| `AttrParse.WalkAccepts` | SDNFV_FINAL/quagga/bgpd/bgp_attr.c:2146-2359 | the loop accepts a block if and only if it is an exact sequence of attributes with pairwise distinct codes each of which is acceptable by itself, and then the result is all of them applied in order |
| `AttrParse.BlockAccepted` | SDNFV_FINAL/quagga/bgpd/bgp_attr.c:2122-2384 | a block is accepted if and only if it is the concatenation of attributes with distinct codes, all acceptable, none of the mandatory ones missing |
| `AttrParse.ApplyAllMarks` | SDNFV_FINAL/quagga/bgpd/bgp_attr.c:2071-2118 | the attributes recorded as present are exactly the accepted ones that set their flag |
| `AttrParse.WithdrawsWhen` | SDNFV_FINAL/quagga/bgpd/bgp_attr.c:905-974 | treating the message as a withdrawal happens exactly for AS4_PATH and LARGE_COMMUNITIES from an external peer, with correct flags, the partial bit and bad contents |
| `AttrParse.NotifyEscapesWhen` | SDNFV_FINAL/quagga/bgpd/bgp_attr.c:2239-2252 | the verdict meant for internal use is returned to the caller exactly for these two attributes with wrong flags from an external peer |
| `AttrParse.NotifyEscapes` | SDNFV_FINAL/quagga/bgpd/bgp_attr.c:2239-2252 | a three-octet block on which that happens |
| `AttrParse.BlockStops` | SDNFV_FINAL/quagga/bgpd/bgp_attr.c:2122-2384 | a block draws the internal verdict, or a withdrawal, if and only if it is a run of accepted attributes without repeats followed by one that draws it |
| `AttrReader.ParseAttributes` | SDNFV_FINAL/quagga/bgpd/bgp_attr.c:2122-2384 | reading never leaves the block, the verdict is the reference one, and on acceptance the read pointer is at the end and the result is the reference one |
| `AttrReader.NextAttribute` | SDNFV_FINAL/quagga/bgpd/bgp_attr.c:2146-2359 | a round of the loop ends the parse with the reference verdict or advances by at least three octets |
| `AttrReader.ReadHeader` | SDNFV_FINAL/quagga/bgpd/bgp_attr.c:2148-2190 | flag, code and length are read with the two header length checks |
| `AttrReader.ReadAttribute` | SDNFV_FINAL/quagga/bgpd/bgp_attr.c:2228-2358 | flag check, handler and conversion of the internal verdict, with every read inside the attribute's own window, which is used up on acceptance |
| `AttrReader.Dispatch` | SDNFV_FINAL/quagga/bgpd/bgp_attr.c:2254-2313 | the handler chosen by the code answers as the reference does and uses up the window on acceptance |
| `AttrReader.ReportMalformed` | SDNFV_FINAL/quagga/bgpd/bgp_attr.c:905-974 | the verdict on a malformed attribute; when the message can go on the window has been skipped |
| `AttrReader.ReadOrigin` | SDNFV_FINAL/quagga/bgpd/bgp_attr.c:1104-1146 | length and value check, value stored |
| `AttrReader.ReadAsPath` | SDNFV_FINAL/quagga/bgpd/bgp_attr.c:1150-1256 | AS_PATH and AS4_PATH parsed from their windows |
| `AttrReader.ReadNextHop` | SDNFV_FINAL/quagga/bgpd/bgp_attr.c:1259-1301 | length and martian check, address stored |
| `AttrReader.ReadMed` | SDNFV_FINAL/quagga/bgpd/bgp_attr.c:1304-1327 | length check, value stored |
| `AttrReader.ReadLocalPref` | SDNFV_FINAL/quagga/bgpd/bgp_attr.c:1330-1362 | length check; stored, or skipped for an external peer |
| `AttrReader.ReadAtomic` | SDNFV_FINAL/quagga/bgpd/bgp_attr.c:1365-1386 | length check, presence recorded |
| `AttrReader.ReadAggregator` | SDNFV_FINAL/quagga/bgpd/bgp_attr.c:1389-1422 | length by peer capability, number and address stored |
| `AttrReader.ReadAs4Aggregator` | SDNFV_FINAL/quagga/bgpd/bgp_attr.c:1425-1449 | length check, number and address stored |
| `AttrReader.ReadCommunities` | SDNFV_FINAL/quagga/bgpd/bgp_attr.c:1560-1587 | the three community attributes: unit check, an empty one clears the list and is not recorded |
| `AttrReader.ReadOriginatorId` | SDNFV_FINAL/quagga/bgpd/bgp_attr.c:1590-1613 | length check, address stored |
| `AttrReader.ReadClusterList` | SDNFV_FINAL/quagga/bgpd/bgp_attr.c:1616-1641 | unit check, list stored |
| `AttrReader.ReadMpReach` | SDNFV_FINAL/quagga/bgpd/bgp_attr.c:1644-1786 | accepted exactly if the next hop length is a known one and prefixes follow; next hop, family and prefixes are those of the window |
| `AttrReader.ReadHop` | SDNFV_FINAL/quagga/bgpd/bgp_attr.c:1686-1750 | route distinguishers are skipped and a second address that is not link-local is not counted |
| `AttrReader.ReadMpUnreach` | SDNFV_FINAL/quagga/bgpd/bgp_attr.c:1789-1822 | minimum length, family and prefixes |
| `AttrReader.ReadEncap` | SDNFV_FINAL/quagga/bgpd/bgp_attr.c:1886-2002 | flags, outer header and sub-attributes that fill the window exactly |
| `AttrReader.ReadSubTlvList` | SDNFV_FINAL/quagga/bgpd/bgp_attr.c:1938-1984 | the sub-attribute loop stays in the window and equals the reference list |
| `AttrReader.ReadUnknown` | SDNFV_FINAL/quagga/bgpd/bgp_attr.c:2005-2068 | skipped, rejected if well-known, or kept whole with the partial bit set if transitive |
| `Fsm.RunNotStuck` | SDNFV_FINAL/quagga/bgpd/bgp_fsm.c:396-432 | in every run, whatever happens, a peer in Clearing has the completion event queued or the work that posts it pending |
| `Fsm.ClearingProgress` | SDNFV_FINAL/quagga/bgpd/bgp_fsm.c:995-1205 | while a peer waits in Clearing no step moves the completion back in the queue, each dispatch moves it forward, and the dispatch that reaches it leads to Idle |
| `Fsm.ClearingWaits` | SDNFV_FINAL/quagga/bgpd/bgp_fsm.c:1110-1127 | in Clearing every event but the completion leaves the peer as it is |
| `Fsm.FreshRun` | SDNFV_FINAL/quagga/bgpd/bgp_fsm.c:396-470 | in every run of a fresh peer: never stuck in Clearing; sessions gained are sessions lost, plus one while Established, plus the completions handled in Established, of which there are none unless something is cleared partially while no clearing is pending |
| `Fsm.RunOrderly` | SDNFV_FINAL/quagga/bgpd/bgp_fsm.c:396-442 | all states of a run have exactly one completion to come while clearing and none otherwise, if and only if nothing is cleared partially while no clearing is pending; then no completion reaches an Established peer |
| `Fsm.RunBalance` | SDNFV_FINAL/quagga/bgpd/bgp_fsm.c:396-470 | in every run the session counters are off by exactly the number of completions handled in Established |
| `Fsm.HandleBalance` | SDNFV_FINAL/quagga/bgpd/bgp_fsm.c:446-470 | an event moves the session counters out of step with the state, by one, if and only if it is a completion handled in Established |
| `Fsm.PartialClearBreaks` | SDNFV_FINAL/quagga/bgpd/bgp_packet.c:2402-2412 | clearing one family of an established session makes a completion take the peer to Idle without counting the loss, if and only if routes were queued |
| `Fsm.DeletedIsFinal` | SDNFV_FINAL/quagga/bgpd/bgp_fsm.c:1128-1145 | no run leaves Deleted or changes its counters |
| `Fsm.SessionComesUp` | SDNFV_FINAL/quagga/bgpd/bgp_fsm.c:995-1109 | a run that reaches Established from the fresh state |
| `Fsm.Peer.StopSession` | SDNFV_FINAL/quagga/bgpd/bgp_fsm.c:446-470 | the queue is flushed except in Clearing, and a lost session is counted |
| `Fsm.Peer.SetStatus` | SDNFV_FINAL/quagga/bgpd/bgp_fsm.c:396-432 | the completion is posted before the change exactly if no clearing work is pending |
| `Fsm.Peer.Perform` | SDNFV_FINAL/quagga/bgpd/bgp_fsm.c:435-964 | the handlers of the table, as far as they touch state, queue and counters |
| `Fsm.Peer.HandleEvent` | SDNFV_FINAL/quagga/bgpd/bgp_fsm.c:1169-1205 | table lookup, handler, then the state change unless the handler refuses it |
| `Fsm.Peer.ClearNodeComplete` | SDNFV_FINAL/quagga/bgpd/bgp_route.c:2878-2887 | the end of the clearing work posts the completion |
| `Fsm.Peer.Delete` | SDNFV_FINAL/quagga/bgpd/bgpd.c:1286-1292 | stop, then Deleted |
| `DampingTable.RunExact` | SDNFV_FINAL/quagga/bgpd/bgp_damp.c:110-372 | over whole runs of withdrawals, updates, scans and timer turns as coded on the doubly linked lists: every state keeps each record on exactly one list, the reuse list of its index if and only if its route is damped, if and only if every timer turn is harmless; the run then ends where the run on lists ends |
| `DampingTable.StepExact` | SDNFV_FINAL/quagga/bgpd/bgp_damp.c:110-372 | one step as coded leaves the records on their lists if and only if it is not a harmful timer turn, and then does what the step on lists does |
| `DampingTable.TimerExact` | SDNFV_FINAL/quagga/bgpd/bgp_damp.c:110-174 | a timer turn as coded, which deletes a freed record a second time, leaves the state of the reference turn if and only if the forgotten records are the last of the chain and the record before them goes to an empty list (or, without one, the list of unsuppressed routes is empty); otherwise no placement fits the links |
| `DampingTable.NoneForgotten` | SDNFV_FINAL/quagga/bgpd/bgp_damp.c:110-174 | a turn is harmless if no record of the chain has decayed to half the reuse limit |
| `DampingTable.PairRunExact` | SDNFV_FINAL/quagga/bgpd/bgp_damp.c:110-372 | under every configuration that suppresses at the second flap, the default one included: a run the daemon can make (time does not run back, a route is withdrawn only if it is not withdrawn already, the timer comes no earlier than ten seconds after it last came) that keeps every record on its list if and only if the suppressed route is not forgotten when its turn comes |
| `DampingTable.RecordIsLost` | SDNFV_FINAL/quagga/bgpd/bgp_damp.c:110-372 | so under every such configuration the daemon can make a run, with one turn of the timer late, after which no placement fits the links |
| `DampingTable.RecordIsLostInTime` | SDNFV_FINAL/quagga/bgpd/bgp_damp.c:389-406 | with the tables as they are sized no turn need be late if two flaps go to the last list |
| `DampingTable.TimerStep` | SDNFV_FINAL/quagga/bgpd/bgp_damp.c:125-172 | the walk that follows the links while it changes them visits exactly the chain and ends |
| `DampingTable.VisitsChain` | SDNFV_FINAL/quagga/bgpd/bgp_damp.c:134-172 | whatever a turn does to the links, the next record is still the next of the chain |
| `DampingTable.WithdrawLinked` | SDNFV_FINAL/quagga/bgpd/bgp_damp.c:177-259 | a withdrawal on the linked lists is the reference step |
| `DampingTable.UpdateLinked` | SDNFV_FINAL/quagga/bgpd/bgp_damp.c:261-299 | an update on the linked lists is the reference step |
| `DampingTable.ScanLinked` | SDNFV_FINAL/quagga/bgpd/bgp_damp.c:302-348 | a scan on the linked lists is the reference step |
| `DampingLinks.TurnExact` | SDNFV_FINAL/quagga/bgpd/bgp_damp.c:134-172 | for any lists and any decisions: relinking a chain record by record leaves the intended lists if and only if the turn is clean, and links that fit no placement otherwise |
| `DampingLinks.Bridged` | SDNFV_FINAL/quagga/bgpd/bgp_damp.c:157-161 | a record forgotten between two that are kept leaves the first pointing to the second, which does not point back |
| `DampingLinks.NoneFit` | SDNFV_FINAL/quagga/bgpd/bgp_damp.c:157-161 | the first record forgotten and a later one kept leaves links that fit no placement |
| `DampingLinks.Forgotten` | SDNFV_FINAL/quagga/bgpd/bgp_damp.c:157-161 | a forgotten rest of the chain cuts off what followed the record before it, or empties the list of unsuppressed routes, and changes nothing else |
| `DampingLinks.CleanIs` | SDNFV_FINAL/quagga/bgpd/bgp_damp.c:134-172 | the condition as it can be checked before the turn |
| `DampingLinks.PushSpells` | SDNFV_FINAL/quagga/bgpd/bgp_advertise.h:111-118 | insertion at the head of a doubly linked list |
| `DampingLinks.UnlinkSpells` | SDNFV_FINAL/quagga/bgpd/bgp_advertise.h:120-128 | deletion of a record that is on the list |
| `Damping.ExecInv` | SDNFV_FINAL/quagga/bgpd/bgp_damp.c:110-372 | every step on lists keeps each record on exactly one list, the reuse list of its index if and only if its route is damped, and follows the rules for suppressing, releasing and forgetting |
| `Damping.RunInv` | SDNFV_FINAL/quagga/bgpd/bgp_damp.c:110-372 | the placement holds in every run of the steps on lists, and penalties stay at or below a sufficient ceiling |
| `Damping.CeilingExact` | SDNFV_FINAL/quagga/bgpd/bgp_damp.c:177-232 | penalties stay at or below the ceiling in every run if and only if it is at least 1000 |
| `Damping.WithdrawRule` | SDNFV_FINAL/quagga/bgpd/bgp_damp.c:177-259 | a withdrawal suppresses only at or above the suppress value, and caps the penalty |
| `Damping.UpdateRule` | SDNFV_FINAL/quagga/bgpd/bgp_damp.c:261-299 | an update releases only below the reuse limit and forgets only at half of it |
| `Damping.ScanRule` | SDNFV_FINAL/quagga/bgpd/bgp_damp.c:302-348 | a scan releases only after the maximum time, with the penalty set to the reuse limit |
| `Damping.TimerRule` | SDNFV_FINAL/quagga/bgpd/bgp_damp.c:110-174 | the turn on lists releases only below the reuse limit, forgets only at half of it, and touches each route of its list once |
| `Damping.WithdrawPlaced` | SDNFV_FINAL/quagga/bgpd/bgp_damp.c:177-259 | placement after a withdrawal |
| `Damping.UpdatePlaced` | SDNFV_FINAL/quagga/bgpd/bgp_damp.c:261-299 | placement after an update |
| `Damping.ScanPlaced` | SDNFV_FINAL/quagga/bgpd/bgp_damp.c:302-348 | placement after a scan |
| `Damping.TimerPlaced` | SDNFV_FINAL/quagga/bgpd/bgp_damp.c:110-174 | placement after a turn on lists |
| `Damping.Decay` | SDNFV_FINAL/quagga/bgpd/bgp_damp.c:92-106 | a decayed penalty never exceeds the penalty and equals it within one tick |
| `DampingTable.Table.ReuseListAdd` | SDNFV_FINAL/quagga/bgpd/bgp_damp.c:65-77 | the record goes to the head of the list of its penalty: index, both links and the head |
| `DampingTable.Table.ReuseListDelete` | SDNFV_FINAL/quagga/bgpd/bgp_damp.c:80-90 | the record's neighbours are joined, or the head of the list of its index moves on |
| `DampingTable.Table.DampListAdd` | SDNFV_FINAL/quagga/bgpd/bgp_damp.c:44 | insertion into the list of unsuppressed routes |
| `DampingTable.Table.DampListDelete` | SDNFV_FINAL/quagga/bgpd/bgp_damp.c:45 | deletion from the list of unsuppressed routes, by the record's own links |
| `DampingTable.Table.WithdrawRoute` | SDNFV_FINAL/quagga/bgpd/bgp_damp.c:177-259 | the linked tables show the reference step, with its answer |
| `DampingTable.Table.UpdateRoute` | SDNFV_FINAL/quagga/bgpd/bgp_damp.c:261-299 | the linked tables show the reference step, with its answer |
| `DampingTable.Table.ScanRoute` | SDNFV_FINAL/quagga/bgpd/bgp_damp.c:302-348 | the linked tables show the reference step, with its answer |
| `DampingTable.Table.ReuseTimer` | SDNFV_FINAL/quagga/bgpd/bgp_damp.c:110-174 | the loop that follows the links ends; the tables show the reference turn if it is harmless and no placement at all otherwise |
| `DampingTable.Table.FreeRecord` | SDNFV_FINAL/quagga/bgpd/bgp_damp.c:350-372 | the record is deleted from the list its flag says and leaves the table |
| `Open.EndsAgree` | SDNFV_FINAL/quagga/bgpd/bgp_packet.c:1185-1300 | with distinct identifiers both ends close the same one of two negotiating connections, the one opened by the lower identifier, whichever OPEN arrives first at either end |
| `Open.ClosesLower` | SDNFV_FINAL/quagga/bgpd/bgp_packet.c:1185-1300 | one end closes its own connection if and only if its identifier is the lower, whichever OPEN arrives first |
| `Open.DetectsOther` | SDNFV_FINAL/quagga/bgpd/bgp_packet.c:1205-1298 | other peers in the list do not matter |
| `Open.CollisionDetect` | SDNFV_FINAL/quagga/bgpd/bgp_packet.c:1185-1300 | the loop over the peers computes the reference verdict |
| `Open.ExchangeAgrees` | SDNFV_FINAL/quagga/bgpd/bgp_packet.c:1629-1688 | after exchanging OPENs each end accepts if and only if the other's hold time is not one or two seconds and the configured families meet; two ends that accept hold the same families, their intersection, and the same hold time, the minimum |
| `Open.OptionsTell` | SDNFV_FINAL/quagga/bgpd/bgp_open.c:743-874 | the receiver of a speaker's capabilities, restart and dynamic ones included, learns exactly its families and agrees on those it is configured for itself |
| `Open.OneMpOption` | SDNFV_FINAL/quagga/bgpd/bgp_open.c:128-181 | a written multiprotocol capability is read as the family it was written for, VPN code mapping included |
| `Open.FixedOptions` | SDNFV_FINAL/quagga/bgpd/bgp_open.c:1060-1081 | route refresh and AS number do not touch the families |
| `Open.RestOptions` | SDNFV_FINAL/quagga/bgpd/bgp_open.c:1060-1142 | nor does anything else that follows the families: dynamic capability, and the restart capability with or without families |
| `Open.WriteCapabilities` | SDNFV_FINAL/quagga/bgpd/bgp_open.c:942-1144 | the writer produces the reference octets for every configuration |
| `Open.WriteRestart` | SDNFV_FINAL/quagga/bgpd/bgp_open.c:1103-1139 | the restart capability, with both lengths filled in at the end |
| `Open.Receiver.CapabilityMp` | SDNFV_FINAL/quagga/bgpd/bgp_open.c:157-181 | offered and agreed families after one capability |
| `Open.Receiver.Capability` | SDNFV_FINAL/quagga/bgpd/bgp_open.c:488-636 | one capability: size checks, effect, and the read pointer moved past it |
| `Open.Receiver.CapabilityParse` | SDNFV_FINAL/quagga/bgpd/bgp_open.c:476-638 | the loop over capabilities equals the reference and stays in the parameter |
| `Open.Receiver.OpenOptionParse` | SDNFV_FINAL/quagga/bgpd/bgp_open.c:743-874 | the loop over parameters and the final checks equal the reference |
| `Communities.UniqSort` | SDNFV_FINAL/quagga/bgpd/bgp_community.c:162-185 | the strictly ascending list of the input's values, whatever the input |
| `Communities.Match` | SDNFV_FINAL/quagga/bgpd/bgp_community.c:413-440 | on canonical lists the one-pass match is containment |
| `Communities.LargeCommunity.AddVal` | SDNFV_FINAL/quagga/bgpd/bgp_lcommunity.c:62-99 | sorted insertion keeps the list strictly ascending and adds exactly the value |
| `Communities.LargeCommunity.UniqSortFrom` | SDNFV_FINAL/quagga/bgpd/bgp_lcommunity.c:104-122 | inserting one by one gives the strictly ascending list of the values |
| `Communities.LargeCommunity.DelVal` | SDNFV_FINAL/quagga/bgpd/bgp_lcommunity.c:530-562 | the first equal value goes, nothing else |
| `Communities.LargeCommunity.MatchDelete` | SDNFV_FINAL/quagga/bgpd/bgp_clist.c:901-965 | on a canonical list, as every list of the daemon is, exactly the values stay whose first matching entry does not permit them, and the list stays canonical; on any list the right ones stay if and only if no value that stays lies between two equal ones that go |
| `Communities.DeletesRight` | SDNFV_FINAL/quagga/bgpd/bgp_clist.c:901-965 | deleting by value at positions collected beforehand, from the last down, is right exactly on those lists |
| `Communities.Loses` | SDNFV_FINAL/quagga/bgpd/bgp_clist.c:955-962 | more positions pointing at or before a value that stays than values before it that go: a value that stays is lost |
| `Communities.KeptMembers` | SDNFV_FINAL/quagga/bgpd/bgp_clist.c:901-965 | what stays, as a set, and that it stays canonical |
| `Communities.FirstMatch` | SDNFV_FINAL/quagga/bgpd/bgp_clist.c:919-952 | the entry loop finds whether the first matching entry permits the value |
| `Communities.RepeatsMislead` | SDNFV_FINAL/quagga/bgpd/bgp_clist.c:955-962 | the limit of deleting by value: with a repeated value around one that stays, which no canonical list has, the one that stays is removed |
| `CommunityText.ListRoundTrip` | SDNFV_FINAL/quagga/bgpd/bgp_community.c:198-293 | reading a printed list back gives its canonical form, so the list itself if and only if it is canonical and not empty; the empty list's text is rejected |
| `CommunityText.ToText` | SDNFV_FINAL/quagga/bgpd/bgp_community.c:198-293 | the text and its zero fit exactly the buffer computed beforehand |
| `CommunityText.ValueFits` | SDNFV_FINAL/quagga/bgpd/bgp_community.c:220-245 | each value with its blank fits the room set aside for it |
| `CommunityText.ReadsBack` | SDNFV_FINAL/quagga/bgpd/bgp_community.c:485-580 | the tokens of a printed list are its values in order |
| `CommunityText.ReadNumber` | SDNFV_FINAL/quagga/bgpd/bgp_community.c:535-577 | the digit-and-colon loop with 32-bit arithmetic equals the split at the colon |
| `CommunityText.GetToken` | SDNFV_FINAL/quagga/bgpd/bgp_community.c:485-580 | the next value, the end, or an unknown token, as in the reference |
| `CommunityText.ParseText` | SDNFV_FINAL/quagga/bgpd/bgp_community.c:583-620 | the loop that adds the last value twice, then sorts, equals the reference |

## Left out

- AsPath.Normalise: the chain of segments is a sequence; relinking of `next` pointers and freeing of folded segments is not modelled, the array inside a set segment is (in `WeedDuplicates`).
- AsPathWire.Put: the stream is assumed to have room, and segment lengths are not cut to 16 bits.
- AsPathWire.Parse: the temporary reference to the parsed path in the hash table is modelled in `Intern`, not here.
- AdjRibOut.Convergence: announcements without an attribute and the reference counts of attributes held by the queues are not modelled; prefixes dropped by the flush for lack of room are recorded as lost and treated in `LostExact`.
- AdjRibOut.WriterConverges: the turns counted are those in which the writer may send; waiting for the synchronisation time or for the end of a graceful restart delays them and is not modelled.
- AdjRibOut.RemovedKeepsQueues: says nothing of `scount`, which the caller adjusts or not.
- AdjRibOut.Synchronizer.UpdatePacket: the encoding of prefixes and attributes is abstracted to how many prefixes fit.
- AsPathMpath.MpathDefined: paths with empty segments, which the parser of the wire format refuses, are not covered.
- AsPathMpath.MpathLength: confederation segments take a round but count no hop; with them the length is the one in `MpathHops`.
- Multipath.MpathUpdate: allocation of the chain nodes, logging and the aggregate attribute of a multipath set are not modelled; without a best path the candidate list is empty, as the caller guarantees.
- Intern.RunConserves: cluster lists and unknown transitive attributes, which are shared by slightly different functions, are not modelled; memory is a map from addresses to cells.
- Intern.Tables.TakeAll: cluster lists and unknown transitive attributes, as above.
- Intern.Tables.UninternSub: cluster lists and unknown transitive attributes, as above.
- AttrParse.BlockAccepted: the merge of AS4 attributes and the check of the AS path that follow the loop are not part of the verdict here.
- AttrReader.ParseAttributes: the bitmap of seen codes is a set; merging of AS4 attributes is in `AsPathAs4`, and the later check of confederation segments and first AS is not modelled.
- AttrReader.ReadCommunities: contents are kept as octets; their canonical form is in `Communities`.
- AttrReader.ReadUnknown: the partial bit is set in the copy that is kept, not in the input stream.
- Fsm.Peer.Perform: sockets, timers, streams, graceful restart state and the removal of temporary peers for accepted connections are not modelled; taking over an accepted connection is a step.
- Damping.TimerRule: on lists, forgetting in the timer drops the record, which is the intent; what the code does to the links, and when that is the same, is `DampingTable.TimerExact`. A freed record's links stay readable in the model, and a turn on links that no longer spell lists is not described beyond its steps.
- Damping.Decay: the tables are parameters, with decay factors between zero and one; their floating-point construction is not modelled.
- Open.WriteCapabilities: without the ORF capabilities, which are sent only if configured.
- Open.Receiver.Capability: the contents of ORF and graceful restart capabilities are passed over, and dynamic capability messages are not modelled.
- Open.ExchangeAgrees: speakers that override or strictly match capabilities are in the parser but not in this statement.
- Communities.LargeCommunity.MatchDelete: regular expression entries are not modelled; values are numbers, since octet order is numeric order.
- Parsing and printing of large communities, extended communities: similar loops that would add easy members.
- Best-path selection, next hop tracking, the routing table and work queue libraries, configuration commands, SNMP, dumping and socket handling: outside the modelled core.
- The coursework in Python and Java around the daemon: fixed topologies and one small table.
