# A verified model of the messenger's protocols

This project models the parts of the repository that carry state: the double ratchet and the session around it,
the Kademlia routing table with its iterative lookup, fragmentation and the reliable transport, and the session
index of the runtime. It proves what these promise over every run. `dafny verify dfyconfig.toml` checks all of it.

How the model is laid out:

- Each source object whose methods update its fields is a Dafny class (`Chains.Chain`, `Ratchets.DoubleRatchet`,
  `Sessions.Session`, `Routing.RoutingTable`, `DhtClients.DhtClient`, `DhtNodes.DhtNode`, `Fragments.Reassembler`,
  `Reliable.ReliableTransport`, `Runtimes.Runtime`). Every method is proved equal to a function of the old state
  (`(State(), out) == AddNode(old(State()), ...)`). The theorems are about those functions, composed into runs.
- Objects that the source keeps by value inside a hash map (chains, sessions) stay values in the map. A step loads
  one into an object and writes it back, which is what the source's `get_mut` amounts to.
- A hash map's iteration order is not fixed where the source does not fix it: the chain or cache entry that makes
  room is any oldest one, given to the specification as `victim`.
- Cryptography is a record of functions, `Crypto.Suite`. The only assumptions are `Lawful`: Diffie-Hellman commutes
  (section 6.1 of RFC 7748) and opening undoes sealing. `CollisionFree` (each root derivation is injective in one input
  while the other is fixed) is assumed only by `InStepIff` and `RootsEqualIff`. `LawfulSuiteExists` shows that both can
  be met together.
- Random values, the clock (nanoseconds, read once per call), what Noise returns and what the network delivers are
  inputs of each step.
- Arithmetic is unbounded except where the source's width matters: the 8-bit piece count and index of a fragmented
  packet, the 16-bit lengths of the DHT format, and the wrapping scan cursor are written out. A 32-bit message
  number at its maximum is excluded by precondition.

The main results, by part:

- **Ratchet.** `Agreement.TwoPartyAgreement`: after any run over a network that drops, duplicates and reorders, a
  message opens to what was sent if and only if it is its first delivery and at most 2048 numbers are skipped in its
  epoch. It covers deliveries in epoch order with fresh DH keys. Outside that order the code does not keep its
  promise, and `EpochOrder` says exactly when: any envelope at all, late or forged, leaves the two roots one step
  apart if and only if it carries one of two public keys (`EnvelopeInRun`), because `decrypt` turns the ratchet on
  every key other than the current one before it authenticates anything. For the peer's own messages this is the
  epoch order (`EpochOrderIsNeeded`), and runs do leave messages behind (`LateMessageExists`).
- **Session.** `SessionRuns.BothEndsAgree` leads from the bytes of one handshake to the start of that two-party
  system; `SessionRuns.InStepIff` shows that a second `initiate_handshake` before the reply silently replaces the DH
  key and is the one thing that breaks it. The safety number tells apart any two handshakes and any two pairs of
  identities (`SafetyInputIff`, up to the digest), also across runtimes (`RuntimeRuns.NoticesMatchIff`).
- **Routing.** The table's invariant, what each call changes, what eviction conserves, the ping cooldown over runs, the
  address and time each entry carries after any run (`RoutingEffects.LastAddWins`), and exactly when `closest_nodes` is
  exact, by a condition on the table (`ClosestNodesTheorems.ExactIff`). A short run of `add_node` leads to a table for
  which it is not (`NearestNodeCanBeMissed`).
- **Lookup.** Truncating after every response equals sorting once; no id is asked twice; every lookup ends; a value is
  found if and only if the reply that ends the lookup brings it (`LookupRuns.FindTheValue`).
- **Transport.** Reassembly undoes splitting in any order, up to 255 pieces; exactly which packets the dedup cache lets
  through (`Reliable.ForwardedIff`); at most six transmissions, and exactly when each is made.
- **Runtime.** The three session maps agree after every step if and only if no connection id is indexed twice; a
  message digest is handed over at most once a minute. `Owners` says under whose identity a connection is indexed
  and what vouches for it.
- **End to end.** `LinkRuns` steps both runtimes and the two-party system together. `HandshakeStartsLink` follows one
  handshake from the initiator's packet through the responder's answer to a connection both ends have. A message
  packet that its session cannot receive costs the connection, so a connection lasts exactly as long as every
  delivery over it is a first delivery in reach (`AliveIff`); a message is handed over if and only if this holds so
  far, it is itself a first delivery in reach, its digest is new and it parses (`HandedOverIff`). One duplicate of a
  message that was already opened ends the conversation over that connection (`SilentForGood`).

Where code and comments differ, the model follows the code. The lookup's comment speaks of the K closest nodes
having been queried: this holds once a response has arrived (`LookupRuns.NearestAllAsked`), while in a join all seeds
share one id, so only the first is ever asked (`LookupRuns.OneSeedPerJoin`). The dedup map of received message keys
is looked up before stale entries are pruned, so a digest stays refused until another message has pruned it: a
repeat is handed over no sooner than a minute later, and possibly much later.

## Model

| member | source | states |
|---|---|---|
| Bytes.BigEndianRoundTrip | src/dht/protocol.rs:130-131 | a number that fits in its width survives `to_be_bytes` and `from_be_bytes` |
| Bytes.FromBigEndianRoundTrip | src/protocol/packet.rs:83-85 | reading bytes as a number and writing it back restores the bytes |
| Bytes.TakeBytesAppend | src/protocol/wire.rs:3-11 | taking n bytes off the front yields exactly those bytes and leaves the rest |
| NodeIds.Distance | src/dht/node_id.rs:18-24 | the loop computes the bytewise XOR of the two ids |
| NodeIds.LeadingZeroBits | src/dht/node_id.rs:27-35 | the scan returns the first differing bit i, with 2^(255-i) <= distance < 2^(256-i), and None exactly for equal ids |
| NodeIds.DistanceBand | src/dht/node_id.rs:27-35 | bit i is returned if and only if the distance lies between 2^(255-i) and 2^(256-i) |
| NodeIds.NumericBand | src/dht/node_id.rs:29-34 | the leading zero bits of any byte string bracket its numeric value between powers of two |
| NodeIds.LexIsNumeric | src/dht/routing.rs:199 | comparing distances byte by byte is comparing the 256-bit numbers |
| NodeIds.DistanceBySplit | src/dht/routing.rs:46-50 | where a node leaves the local id, relative to where the target leaves it, fixes the binary band of its distance to the target |
| Contacts.SortByDistanceIsStableSort | src/dht/routing.rs:199 | the sort is ordered, a permutation, and keeps the order of entries at equal distance |
| Contacts.IncrementalSort | src/dht/client.rs:157-158 | sorting and truncating, appending more, sorting and truncating again equals doing it once at the end |
| Routing.RoutingTable.constructor | src/dht/routing.rs:38-44 | a new table has 256 empty buckets |
| Routing.RoutingTable.BucketOf | src/dht/routing.rs:46-50 | the bucket of a node is its first differing bit, 255 for the local id |
| Routing.RoutingTable.Add | src/dht/routing.rs:54-98 | the new table and the node handed out to be pinged, in each of the six cases |
| Routing.RoutingTable.Remove | src/dht/routing.rs:100-105 | both lists lose every entry with the id, and nothing else changes |
| Routing.RoutingTable.PingTarget | src/dht/routing.rs:109-126 | hands out and marks the least recently seen entry due a ping |
| Routing.OldestDue | src/dht/routing.rs:86-93 | the choice is due a ping, least recently seen among those, and the first such entry |
| Routing.Freshest | src/dht/routing.rs:159-164 | the promoted candidate is the most recently seen one, the last such entry |
| Routing.RoutingTable.EvictStale | src/dht/routing.rs:131-172 | the eviction loops compute the bucketwise specification, and terminate |
| Routing.RoutingTable.DemoteStale | src/dht/routing.rs:141-155 | the index loop keeps the live entries in order and moves stale ones down while there is room |
| Routing.RoutingTable.PromoteFreshest | src/dht/routing.rs:158-170 | the promotion loop fills the active list from the candidates |
| Routing.RoutingTable.Closest | src/dht/routing.rs:174-202 | the outward scan, sort and truncation compute the first n of the sorted buckets within its reach |
| Routing.RoutingTable.ScanOutward | src/dht/routing.rs:182-197 | the alternating loop with its wrapping cursor gathers the buckets at most d away, for the first d at which it stops |
| RoutingRuns.RunKeepsInv | src/dht/routing.rs:46-172 | in every reachable table each id sits in the bucket of its first differing bit, the local id is absent, no id occurs twice in a bucket, and lists hold at most K |
| RoutingRuns.OnePlacePerId | src/dht/routing.rs:63-75 | across all buckets and both lists an id has one place |
| RoutingRuns.CandidatesOnlyWhenFull | src/dht/routing.rs:79-87 | over runs without removal, a bucket with candidates has a full active list |
| RoutingRuns.EvictionRefills | src/dht/routing.rs:158-170 | after eviction every bucket has K active entries or no candidates |
| RoutingRuns.EvictConserves | src/dht/routing.rs:131-172 | as multisets, a bucket is what stays plus the expired candidates plus the stale active entries that found no room |
| RoutingRuns.LiveEntriesStay | src/dht/routing.rs:143-154 | an active entry not pinged, or seen since its ping, is never removed |
| RoutingRuns.PromoteMoves | src/dht/routing.rs:158-170 | promotion loses nothing, keeps the front of the active list, and takes the freshest first |
| RoutingRuns.PingCooldown | src/dht/routing.rs:86-93 | the same id is handed out twice only more than 60 s apart, or after `add_node` for it in between, across demotion and promotion |
| RoutingRuns.HandedOutEntry | src/dht/routing.rs:109-126 | what is handed out is the oldest due entry of its bucket, which is then marked, and never the node being added |
| RoutingEffects.AddEffect | src/dht/routing.rs:54-98 | after `add_node` any entry with the id carries the new address, the present time and no ping mark; it is present unless the id was unknown and both lists were full; other entries change at most their ping mark |
| RoutingEffects.AddSelf | src/dht/routing.rs:55-57 | the local node is never added |
| RoutingEffects.AddPingsIff | src/dht/routing.rs:78-97 | a ping is asked for if and only if an unknown node becomes a candidate and some active entry is due |
| RoutingEffects.NeedsPingIff | src/dht/routing.rs:109-126 | `needs_ping` names someone if and only if an active entry of the bucket is due |
| RoutingEffects.RemoveEffect | src/dht/routing.rs:100-105 | in the whole table exactly the entries with the id are gone |
| RoutingEffects.StaleEntryReplaced | src/dht/routing.rs:141-170 | an active entry silent since a ping of more than 120 s ago is out after eviction if live entries and fresher candidates fill the bucket |
| RoutingEffects.LastAddWins | src/dht/routing.rs:54-98 | after any run, the entry of an id carries the address and time of the last call that added it |
| RoutingEffects.ClosestAddresses | src/dht/routing.rs:174-202 | after any run, `closest_nodes` names each node under the address it was last added with |
| RoutingEffects.AddAllIsRun | src/dht/client.rs:136-145 | learning the nodes of a response is adding each of them, in order |
| ClosestNodesTheorems.ReachableIsWellPlaced | src/dht/routing.rs:54-98 | every reachable table meets the assumptions of the scan theorems |
| ClosestNodesTheorems.ResultShape | src/dht/routing.rs:174-202 | the result is sorted, free of duplicate ids, at most n long, and active nodes only |
| ClosestNodesTheorems.OwnBucketCloser | src/dht/routing.rs:176-180 | nodes of the target's bucket are strictly closer to it than nodes of any other bucket |
| ClosestNodesTheorems.OwnBucketFirst | src/dht/routing.rs:178-180 | if n can hold it, the result starts with the whole of the target's bucket, sorted |
| ClosestNodesTheorems.OnlyDeeperNodesAreMissed | src/dht/routing.rs:184-197 | a node omitted while a farther one is returned lies in a bucket deeper than the scan reached |
| ClosestNodesTheorems.ExactIff | src/dht/routing.rs:174-202 | the result is exactly the n closest if and only if, for every active node deeper than the scan reached, the buckets from the target's own down to the last one scanned hold n active nodes no farther than it |
| ClosestNodesTheorems.ExactIffNothingDeeper | src/dht/routing.rs:174-202 | if those buckets hold fewer than n active nodes, the result is exact if and only if no deeper bucket has an active node |
| ClosestNodesTheorems.ExactForLocalId | src/dht/routing.rs:174-202 | exact when the target is the local id |
| ClosestNodesTheorems.ExactFromOwnBucket | src/dht/routing.rs:178-184 | exact when the target's bucket holds at least n |
| ClosestNodesTheorems.ExactForSmallTable | src/dht/routing.rs:184-201 | exact, and complete, when the table holds at most n active nodes |
| ClosestNodesTheorems.NearestNodeCanBeMissed | src/dht/routing.rs:184-197 | for every n from 1 to K a run of n + 1 `add_node` calls leads to a table where, for some target, the single nearest node is omitted |
| ClosestNodesTheorems.CrowdedIsReachable | src/dht/routing.rs:54-82 | that table, written out, is what the run of `add_node` gives |
| DhtClients.ClosestUnqueried | src/dht/client.rs:20-25 | the choice is unqueried, in the shortlist, and nearest among the unqueried |
| DhtClients.PendingLookup.Next | src/dht/client.rs:20-30 | chooses and marks as queried |
| DhtClients.DhtClient.StartJoin | src/dht/client.rs:46-73 | seeds enter the shortlist under the zero id, and the first query follows |
| DhtClients.DhtClient.StartLookupNode | src/dht/client.rs:79-101 | starts from the K closest nodes the table finds |
| DhtClients.DhtClient.StartFindValue | src/dht/client.rs:103-126 | the same for a key, asking for its value |
| DhtClients.DhtClient.HandleResponse | src/dht/client.rs:128-175 | the new lookup, the next request, whether to stop, and what the routing table learns |
| DhtClients.DhtClient.SkipNode | src/dht/client.rs:177-198 | moves on to the next contact without changing the shortlist |
| LookupRuns.ShortlistIsOneShot | src/dht/client.rs:134-158 | after any responses and skips the shortlist equals one stable sort of everything ever heard of, truncated once |
| LookupRuns.NothingAskedTwice | src/dht/client.rs:16-31 | no id is asked twice, and no more ids are asked than were ever learned |
| LookupRuns.NearestAllAsked | src/runtime.rs:309-341 | when a lookup ends without a value, the K nearest of everything learned have been asked |
| LookupRuns.OneSeedPerJoin | src/dht/client.rs:46-73 | a join asks its first seed and no other |
| LookupRuns.FoundValueIff | src/dht/client.rs:141-151 | a lookup has found v if and only if one of the replies it waited for carried v |
| LookupRuns.FoundInLast | src/dht/client.rs:146-150 | the value found is the one in the reply that ended the lookup, None if that carried none; with a value, its nodes are appended unsorted |
| LookupRuns.FinitelyManyIds | src/dht/node_id.rs:4-6 | there are at most 256^32 ids, which bounds every lookup |
| LookupRuns.QueryLoop | src/runtime.rs:309-341 | the loop ends for every sequence of answers and timeouts, in the state the run describes, having sent the request of the lookup to everyone asked, in order |
| LookupRuns.OneRound | src/runtime.rs:314-336 | one turn of the loop: the next request, and what the routing table learns from the response |
| LookupRuns.FindTheValue | src/runtime.rs:343-375 | `find_value` returns the value in the last reply, None if it carries none, and the shortlist, after asking each contact for the value of the key |
| LookupRuns.LookupNode | src/runtime.rs:309-341 | `lookup_node` returns the shortlist, after asking each contact for the nodes nearest the target |
| LookupRuns.Join | src/runtime.rs:276-307 | `join` asks each contact for the nodes nearest the node itself |
| LookupRuns.StoreValue | src/runtime.rs:377-396 | `store` sends the value to every node of the shortlist, and fails if and only if there is none |
| DhtProtocol.Serialize | src/dht/protocol.rs:110-157 | the writer produces the specified encoding |
| DhtProtocol.SerializeNodes | src/dht/protocol.rs:100-108 | the loop writes the truncated count and every node |
| DhtProtocol.Deserialize | src/dht/protocol.rs:159-224 | the reader yields what the specification parses, and None where it rejects |
| DhtProtocol.Cursor.TakeNodes | src/dht/protocol.rs:87-98 | the loop drains the node list from the front |
| DhtProtocol.Cursor.TakeAddress | src/dht/protocol.rs:46-68 | drains one address, of either kind |
| DhtProtocol.RoundTripIff | src/dht/protocol.rs:110-224 | an encoding followed by anything parses back if and only if lengths fit 16 bits and IPv6 flow and scope are zero |
| DhtProtocol.PrefixFree | src/dht/protocol.rs:110-224 | no encoding is a proper prefix of another operation's |
| DhtProtocol.DecodedIsEncodable | src/dht/protocol.rs:159-224 | whatever the parser returns can be encoded without loss |
| DhtProtocol.PanicsIff | src/dht/protocol.rs:186-191 | the parser panics exactly on a store cut inside its two length bytes |
| WireLayout.OperationNumbers | src/dht/protocol.rs:33-44 | the byte that names each kind of operation, and the sender behind it |
| WireLayout.OperationFields | src/dht/protocol.rs:110-141 | the fields behind the sender, for operations without value or nodes |
| WireLayout.StoreLayout | src/dht/protocol.rs:127-133 | key, time to live, length and value of a store, each in its place |
| WireLayout.ValueLayout | src/dht/protocol.rs:142-154 | key, found value and nodes of a value answer, each in its place |
| WireLayout.FoundLayout | src/dht/protocol.rs:145-152 | 0 for no value; 1, the length and the value otherwise |
| WireLayout.NodesLayout | src/dht/protocol.rs:100-108 | a node list is its count and then its nodes, id first |
| WireLayout.AddressLayout | src/dht/protocol.rs:70-85 | kind 4 or 6, the octets, the port |
| WireLayout.ByteOrder | src/dht/protocol.rs:63 | most significant byte first |
| DhtNodes.DhtNode.ProcessOp | src/dht/node.rs:35-85 | the answer, the store and the table after each kind of operation; answers are built before the requester is learned |
| DhtNodes.StoredUntilExpiry | src/dht/node.rs:51-70 | a stored value is found exactly until its time to live runs out, whatever else is served, unless replaced |
| DhtNodes.AnswerShape | src/dht/node.rs:35-85 | requests and only requests are answered, each by its own kind: a node lookup with what is offered for its target, a value lookup with the unexpired value of the key and what is offered for it |
| DhtNodes.OfferedNodes | src/dht/node.rs:43-48 | what is offered for a target: exactly the K nodes the table finds, but the requester, nearest first |
| DhtNodes.AnswerNodes | src/dht/node.rs:43-62 | no answer offers more than K nodes, or the requester |
| DhtNodes.ServerLearns | src/dht/node.rs:35-85 | over any requests the table learns every sender under the address it wrote from, and every node carried, in order |
| DhtNodes.ServingKeepsTable | src/dht/node.rs:35-85 | serving any requests keeps the routing invariant |
| Chains.Chain.Next | src/crypto/ratchet.rs:17-22 | one step of the chain, and its message key |
| Chains.Chain.SkipForward | src/crypto/ratchet.rs:26-42 | refuses gaps above 2048, else the chain at the target with every passed key stored |
| Chains.Chain.StepThrough | src/crypto/ratchet.rs:30-41 | the loop stores exactly the passed keys and returns the last, zeros if it does not run |
| Chains.SkippingIsSkipped | src/crypto/ratchet.rs:30-41 | stepping one message at a time gives the chain key iterated, with message keys iterated for every number passed |
| Chains.Chain.TakeSkipped | src/crypto/ratchet.rs:44-46 | a stored key is handed out and forgotten |
| Chains.Chain.Accepting | src/crypto/ratchet.rs:116-125 | which key a message number selects, and the chain afterwards |
| Chains.SenderKey | src/crypto/ratchet.rs:17-22 | after i advances from k0 the next one yields the key of message i + 1 |
| Chains.AcceptGenuine | src/crypto/ratchet.rs:116-125 | a number is accepted exactly if not handed out and at most 2048 ahead, with the sender's key; else the chain is unchanged |
| Chains.AnyOrderDelivery | src/crypto/ratchet.rs:17-46 | for any arrival sequence the j-th arrival gets the sender's key if and only if it is new and in reach |
| Chains.SkippedOrHandedOnce | src/crypto/ratchet.rs:26-46 | every number up to the highest is stored or was handed out, never both, and at most once |
| Ratchets.SavedChainsBounded | src/crypto/ratchet.rs:79-87 | at most eight chains stay, the new one among them, and only an oldest one goes |
| Ratchets.DoubleRatchet.constructor | src/crypto/ratchet.rs:152-164 | both chains start from the shared secret |
| Ratchets.DoubleRatchet.InitiatorPreRatchet | src/crypto/ratchet.rs:166-177 | moves the root and the sending chain, and nothing else |
| Ratchets.DoubleRatchet.Seal | src/crypto/ratchet.rs:89-97 | seals with the next message key under the current DH key |
| Ratchets.DoubleRatchet.SaveReceivingChain | src/crypto/ratchet.rs:79-87 | stores the new chain, an oldest one making room if eight are saved |
| Ratchets.DoubleRatchet.Turn | src/crypto/ratchet.rs:132-150 | the two root steps, the new chains and keys |
| Ratchets.DoubleRatchet.Open | src/crypto/ratchet.rs:99-128 | turns on a new DH key, selects the message key, opens |
| Ratchets.OneChainUsed | src/crypto/ratchet.rs:110-127 | decrypting dates the chain it uses and leaves the other chains and their dates alone |
| Agreement.TurnReachesSender | src/crypto/ratchet.rs:132-150 | by commutativity the receiver's turn derives the sender's chain and goes one root step past the sender's root |
| Agreement.DeliverAgrees | src/crypto/ratchet.rs:99-128 | every delivery in epoch order keeps the invariant and opens to what was sent exactly for a first delivery in reach |
| Agreement.RunKeepsInv | src/crypto/ratchet.rs:89-150 | the two-phase invariant holds after every run of sends and deliveries |
| Agreement.TwoPartyAgreement | src/crypto/ratchet.rs:49-178 | after any run, delivering any message succeeds with its plaintext if and only if it is a first delivery in reach |
| Agreement.RootsOneStepApart | src/crypto/ratchet.rs:132-177 | after any run one root is exactly one `kdf_rk` step past the other |
| EpochOrder.EnvelopeKeepsStepIff | src/crypto/ratchet.rs:99-128 | of two ratchets one root step apart, whichever decrypts whatever envelope: they stay one step apart if and only if it carries the key listened to or the key the other end holds |
| EpochOrder.EnvelopeInRun | src/crypto/ratchet.rs:106-108 | the same after any run, for an envelope made by anyone |
| EpochOrder.EpochOrderIsNeeded | src/crypto/ratchet.rs:106-108 | delivering a message of the run keeps the roots one step apart if and only if it is in epoch order |
| EpochOrder.LateMessageTurns | src/crypto/ratchet.rs:132-150 | the key listened to, the own key and the root that a late message leaves its receiver with |
| EpochOrder.LateMessageExists | src/crypto/ratchet.rs:99-150 | five sends and deliveries in epoch order reach a world with an unopened message in reach that would come late |
| EpochOrder.NumberIsSpent | src/crypto/ratchet.rs:116-127 | an envelope under the current key spends the key of its number, whether or not it opens |
| EpochOrder.SpentNumberIsRefused | src/crypto/ratchet.rs:116-127 | an envelope under the current key that does not open, whoever made it, makes the sender's own message of that number be refused |
| Packets.PacketFlags.Set | src/protocol/packet.rs:41-43 | turns on one flag and touches no other bit |
| Packets.SetOneFlag | src/protocol/packet.rs:37-43 | afterwards a flag is contained if and only if it was, or is the one set |
| Packets.TagBytesMatch | src/protocol/payload.rs:14-42 | the two tag tables are inverse to each other |
| Packets.PayloadRoundTrip | src/protocol/payload.rs:72-99 | every payload survives writing and reading |
| Packets.PacketRoundTrip | src/protocol/packet.rs:69-97 | every packet survives writing and reading |
| Packets.ParsedPacketIsEncoding | src/protocol/packet.rs:82-97 | what the parser accepts is exactly the encoding of what it returns |
| WireLayout.PayloadTagNumbers | src/protocol/payload.rs:30-42 | the byte of each payload tag |
| WireLayout.FlagNumbers | src/protocol/packet.rs:5-43 | the bit of each flag |
| WireLayout.PacketLayout | src/protocol/packet.rs:69-80 | version, flags, id and payload, each in its place |
| WireLayout.CertificateLayout | src/identity/certificates.rs:30-48 | both device keys and the signature, which is verified over exactly the bytes in front of it |
| WireLayout.FrameLayout | src/protocol/session.rs:322-326 | nonce, DH key, message number and ciphertext, each in its place |
| WireLayout.BodyLayout | src/runtime.rs:769-778 | message key, nonce and the message sealed under them |
| Fragments.SplitPacket | src/transport/fragment.rs:15-50 | the loop makes the specified fragments, with the 8-bit piece count |
| Fragments.ChunksFlatten | src/transport/fragment.rs:26 | the pieces joined give back the bytes |
| Fragments.ChunkAt | src/transport/fragment.rs:26 | piece i is the bytes from 1200 i up to 1200 (i + 1) or the end |
| Fragments.SplitShape | src/transport/fragment.rs:15-50 | 2 to 255 pieces give that many fragments of at most 1200 bytes, numbered in order, the last and only the last marked, each with an id of its own and the tag of the packet |
| Fragments.SplitIsFeedableIff | src/transport/fragment.rs:17-27 | what is split can be fed without an index out of bounds if and only if the piece count is not a truncated one above 1 |
| Fragments.ZeroIdIsNotReassembled | src/transport/fragment.rs:68-71 | fragments of a packet with id 0 come back one by one |
| Fragments.SentWholeIff | src/transport/fragment.rs:17-21 | a packet goes out whole, under its own id, exactly when its 8-bit piece count is at most 1 |
| Fragments.ChangedTotalStartsOver | src/transport/fragment.rs:79-85 | a fragment giving another total makes the stream start over, with that chunk alone |
| Fragments.Reassembler.FeedFragment | src/transport/fragment.rs:67-91 | the pending map and the result, including the reset on a changed total |
| Fragments.Reassembler.IsFull | src/transport/fragment.rs:102-111 | all chunks joined, or None if one is missing |
| Fragments.Reassembler.Sweep | src/transport/fragment.rs:93-95 | exactly the entries of 60 s and more go |
| Fragments.ReassemblyUndoesSplit | src/transport/fragment.rs:67-111 | in any order, with duplicates and other traffic, feeding yields nothing until every piece has arrived, and then the original |
| Fragments.SweepForgetsIff | src/transport/fragment.rs:92-94 | after any arrivals a sweep forgets a stream exactly if its first piece came sixty seconds ago or more, complete or not |
| Reliable.ReliableTransport.Forwards | src/transport/reliable.rs:90-113 | forwards exactly what is not a remembered duplicate, and how the cache changes |
| Reliable.SeenStaysBounded | src/transport/reliable.rs:98-113 | the cache never exceeds 1024 ids |
| Reliable.DedupWindow | src/transport/reliable.rs:90-113 | after any run an id is forwarded again only after five minutes or after 1023 other ids forwarded no earlier |
| Reliable.ForwardedIff | src/transport/reliable.rs:90-115 | after any run a packet is forwarded if and only if its id never was, or last was five minutes ago or more, or a full cache has pushed that out, and then 1023 other ids were forwarded no earlier |
| Reliable.FreshIsForwarded | src/transport/reliable.rs:90-115 | a packet whose id was not forwarded in the last five minutes always goes through |
| Reliable.AcceptedAck | src/transport/reliable.rs:222-264 | an ack is accepted if and only if it is for a pending packet, comes from its destination, names a valid key, and is signed by the stored key if there is one; exactly an accepted ack from a new address stores a key |
| Reliable.ReliableTransport.VerifiesAck | src/transport/reliable.rs:222-264 | accepts, and stores a first key, exactly as specified |
| Reliable.ReliableTransport.SendPacket | src/transport/reliable.rs:151-173 | every fragment goes out with AckRequired set and becomes pending |
| Reliable.ReliableTransport.Receive | src/transport/reliable.rs:61-118 | one datagram: reassembly, then ack handling or dedup |
| Reliable.ReliableTransport.Idle | src/transport/reliable.rs:119-136 | one timeout: gives up, sends again what is due, drops stale reassemblies |
| Reliable.AtMostSixTransmissions | src/transport/reliable.rs:121-133 | in every run a packet is transmitted at most six times, more than 2 s apart, and stops being pending only by an ack or after the sixth |
| Reliable.WireFormParses | src/transport/reliable.rs:154-158 | what goes on the wire parses to the fragment with AckRequired set and nothing else changed |
| Reliable.SendingIsRun | src/transport/reliable.rs:151-173 | sending a packet is the run of its fragments' send events |
| Reliable.SweepIsExact | src/transport/reliable.rs:121-133 | a timeout transmits again exactly what was transmitted fewer than six times, last more than 2 s ago, and gives up exactly what was transmitted six times |
| Reliable.SilentAfterAck | src/transport/reliable.rs:76-88 | after an accepted ack no run transmits the packet again |
| Sessions.Session.Initiate | src/protocol/session.rs:68-93 | the first payload, and the DH key kept even when Noise refuses |
| Sessions.Session.Complete | src/protocol/session.rs:95-151 | each error, and everything a completed handshake sets |
| Sessions.Session.Accept | src/protocol/session.rs:178-228 | each error with the fields already set, and everything an accepted message sets |
| Sessions.Session.Reply | src/protocol/session.rs:230-269 | each error, and everything a reply sets |
| Sessions.Session.Send | src/protocol/session.rs:304-332 | the framed payload, and the advanced ratchet |
| Sessions.Session.Receive | src/protocol/session.rs:334-372 | the body and sender key, or the error, and the ratchet after it |
| SessionRuns.RunKeepsSession | src/protocol/session.rs:95-269 | over any run the four handshake fields are set together, and once established none of them changes |
| SessionRuns.EstablishedInitiator | src/protocol/session.rs:114-125 | an established initiator has a certificate for the authenticated static key that verifies under the expected identity |
| SessionRuns.EstablishedResponder | src/protocol/session.rs:242-248 | an established responder has a certificate for the authenticated static key |
| SessionRuns.AcceptReadsInitiate | src/protocol/session.rs:178-228 | the responder reads exactly the key, certificate, master key and address the initiator wrote |
| SessionRuns.CompleteReadsReply | src/protocol/session.rs:101-112 | the initiator reads exactly the key and certificate the responder wrote |
| SessionRuns.SafetyInputIff | src/protocol/session.rs:374-396 | the digested bytes pin the handshake hash and the two identities: two safety numbers digest the same bytes if and only if the hashes are equal and the pairs of identities are, in either order |
| SessionRuns.BothEndsAgree | src/protocol/session.rs:95-269 | each end is established exactly if the certificates fit; then both have one connection id and ratchets with a common root, and safety numbers, taken with the identities each end has, over the same bytes exactly if the initiator expected the real identity |
| SessionRuns.InStepIff | src/protocol/session.rs:87-92 | the ratchets start one step apart if and only if `initiate_handshake` was not called again with another key |
| SessionRuns.RootsEqualIff | src/protocol/session.rs:403-413 | the two ends derive the same root key if and only if the initiator's key at completion is the one the responder received |
| SessionRuns.FrameReadBack | src/protocol/session.rs:322-354 | the message frame survives writing and reading |
| SessionRuns.SessionSends | src/protocol/session.rs:304-332 | sending through a session is a send step of the two-party system |
| SessionRuns.SessionDelivers | src/protocol/session.rs:334-372 | receiving through a session returns the body and sender key exactly for a first delivery in reach |
| Runtimes.Runtime.SetMasterPubkey | src/runtime.rs:196-198 | the master key is set |
| Runtimes.Runtime.SetDeviceCert | src/runtime.rs:200-202 | the device certificate is set |
| Runtimes.Runtime.SetPeerAddr | src/runtime.rs:227-229 | one address is set |
| Runtimes.Runtime.EnableSessionInitiator | src/runtime.rs:242-264 | a pending initiator under the tag, exactly if the master key and certificate are set |
| Runtimes.Runtime.StartHandshake | src/runtime.rs:663-681 | the packet of `initiate_handshake`, where it goes, each error, and the pending session afterwards |
| Runtimes.Runtime.TickHandshake | src/runtime.rs:551-634 | the whole state and what goes out, for every kind of handshake packet |
| Runtimes.Runtime.TickMessage | src/runtime.rs:683-748 | the whole state, what is handed over and whether it is acknowledged |
| Runtimes.Runtime.RemoveStaleConn | src/runtime.rs:750-760 | removes one connection from all three maps, and an emptied list with it |
| Runtimes.Runtime.Send | src/runtime.rs:762-799 | the sessions after the loop, the payloads, and the result |
| RuntimeRuns.AddKeepsMapsIff | src/runtime.rs:605-607 | indexing a session keeps the maps in agreement if and only if its connection id is new |
| RuntimeRuns.HandshakeKeepsMapsIff | src/runtime.rs:551-634 | a handshake packet keeps the maps in agreement if and only if it brings no connection id already indexed |
| RuntimeRuns.RemoveKeepsMaps | src/runtime.rs:750-760 | removing a connection keeps the maps in agreement |
| RuntimeRuns.SendReachesPeer | src/runtime.rs:762-799 | a send succeeds exactly for an indexed peer with an address, once per connection, and never ends without an active session |
| RuntimeRuns.MapsAlwaysAgree | src/runtime.rs:551-799 | in every reachable state the three maps agree, every indexed session is established, and sends behave as above |
| RuntimeRuns.OneDeliveryPerMinute | src/runtime.rs:716-743 | after any run, fresh connection ids or not, a digest is handed over again only 60 s or more later |
| RuntimeRuns.HandedOverExactly | src/runtime.rs:683-743 | a message packet hands over what is inside if and only if it opens, parses, and its digest is not remembered |
| RuntimeRuns.NewDigestGoesThrough | src/runtime.rs:716-743 | after any run, a message whose digest was never handed over goes through, if it opens and parses |
| RuntimeRuns.HandingOverPrunes | src/runtime.rs:731 | after a message is handed over, every digest remembered is less than a minute old |
| RuntimeRuns.MessageAckedIff | src/runtime.rs:723-747 | a message packet is acknowledged if and only if it asks for it, and was handed over or repeats a remembered digest |
| RuntimeRuns.NoticesMatchIff | src/runtime.rs:564-623 | of two runtimes that each finished a handshake, perhaps not the same one, the notified safety numbers digest the same bytes if and only if both handshakes have one hash and each end takes the other for who it is |
| RuntimeRuns.InitiatorNotice | src/runtime.rs:614-622 | the initiator's runtime indexes and announces its peer under the expected identity |
| RuntimeRuns.ResponderNotice | src/runtime.rs:581-609 | the responder's runtime indexes and announces its peer under the claimed identity |
| RuntimeRuns.FirstPacket | src/runtime.rs:663-681 | the initiator sends the Noise bytes of its first payload under its tag, to the address known for the peer |
| RuntimeRuns.ResponderAnswers | src/runtime.rs:585-596 | the responder answers with the Noise bytes of its reply, under the tag of the packet, to the address the initiator gave |
| RuntimeRuns.ResponderNotes | src/runtime.rs:585-608 | the responder notes the address, the device key and that the tag is used |
| RuntimeRuns.InitiatorNotes | src/runtime.rs:564-575 | the initiator notes the device key, and the session is no longer pending |
| RuntimeRuns.HandshakeAckedIff | src/runtime.rs:577-634 | a handshake packet is acknowledged if and only if it asks for it, and completes a session or has an unused tag |
| RuntimeRuns.OneSessionPerTag | src/runtime.rs:578-608 | over any run a tag opens at most one responder session; later packets with it that complete nothing are neither answered nor announced |
| RuntimeRuns.FailedReceiveRemoves | src/runtime.rs:700-706 | a packet that its session cannot receive removes the connection and yields nothing |
| RuntimeRuns.MessageArrives | src/runtime.rs:683-743 | one delivery to a session still indexed and in step: what is handed over, and that the connection survives if and only if it is a first delivery in reach |
| Owners.OwnersOfConnections | src/runtime.rs:564-622 | in every reachable state a connection we opened is indexed under the identity we expected, which signed its certificate; one our peer opened, under the identity it claimed |
| Owners.ResponderIndexesClaim | src/runtime.rs:577-609 | a responder indexes the claimed master key exactly if the reply goes out and the certificate fits the Noise key, whoever signed it |
| Owners.DeliveryIgnoresOwner | src/runtime.rs:692-743 | the identity a connection is indexed under plays no part in what is handed over from it |
| LinkRuns.SendOverConn | src/runtime.rs:762-799 | a send puts exactly one packet of the connection's session on the wire if the peer is reached over it, else none |
| LinkRuns.TicksStartLink | src/runtime.rs:551-634 | the two handshake ticks leave both runtimes with an indexed session of the connection, in step, if the first payload was written once |
| LinkRuns.HandshakeStartsLink | src/runtime.rs:551-681 | end to end: the packet that `initiate_handshake` sends makes the responder answer, under the same tag and to the address in it; once that very answer is in, both runtimes have an indexed session of the connection, in step |
| LinkRuns.RunKeepsLink | src/runtime.rs:551-799 | over any run of both runtimes, sessions still indexed follow the two-party system, and every packet carries what was posted |
| LinkRuns.AliveIff | src/runtime.rs:700-706 | a connection lasts exactly as long as every delivery over it is a first delivery in reach |
| LinkRuns.HandedOverIff | src/runtime.rs:683-799 | a message is handed over if and only if every delivery so far and this one are first deliveries in reach, its digest is new and it parses; and then it is what was posted |
| LinkRuns.SilentForGood | src/runtime.rs:692-706 | once the connection is lost nothing arriving over it is handed over |

## Left out

- Concrete cryptography and the Noise library: abstract functions and inputs. That sealing and key derivation can fail is not modelled; the source's calls fail only on impossible lengths.
- Sockets, threads, mutexes and channels: each loop body is one atomic step with one reading of the clock.
- Agreement.TwoPartyAgreement: deliveries of an older epoch after a newer one was accepted, and envelopes the peer did not make, are excluded; `EpochOrder.EnvelopeInRun` says what they do.
- LinkRuns.HandedOverIff: to a party that still has the connection, packets come in epoch order and are those its peer's runtime sent; any other packet a session cannot receive removes the connection (`RuntimeRuns.FailedReceiveRemoves`). Its other events do not bring back a connection under the same id.
- Agreement.RunKeepsInv: DH keys drawn fresh are assumed to have public keys different from all earlier ones.
- RuntimeRuns.MapsAlwaysAgree: connection ids of new sessions are assumed fresh, which also excludes a node shaking hands with itself.
- Reliable.AtMostSixTransmissions: packet ids are assumed to be used once.
- Fragments.ReassemblyUndoesSplit: all events lie within the 60 s after which an incomplete entry may be dropped.
- Fragments.SplitPacket: the last-fragment comparison wraps on eight bits, as in a release build; a debug build would stop there for 256 pieces and more.
- Fragments.Reassembler.FeedFragment: a fragment with an index beyond its total is excluded; the source stops on it.
- DhtProtocol.Deserialize: a store cut inside its length field is excluded; `DhtProtocol.PanicsIff` says exactly which inputs those are.
- Reliable.ReliableTransport.Receive: an awaited ack shorter than 96 bytes is excluded; the source stops on it.
- Acknowledgement of fragments: acks carry the id of the reassembled packet, so nothing is claimed about which fragments they settle.
- LookupRuns.QueryLoop: the ping sent to a node handed out by the routing table is not modelled; the response is any operation from any sender.
- RoutingEffects.StaleEntryReplaced: while the bucket has room, a stale entry may be demoted and promoted again in the same call, as in the code.
- Runtimes.Runtime.Send: the destination address of the packets and wrapping them into relay frames are not modelled.
- Overflow of 32-bit message numbers and of the clock: excluded by precondition or not modelled.
- src/main.rs, src/api.rs, src/storage.rs, src/network, src/identity and src/dht/record: orchestration, flat formats and key wrappers that would only add easy members.
