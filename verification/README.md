# A verified model of the L3 engine's dataplane

The engine process and the packetiser process of this DPDK dataplane pass packet
buffers (mbufs) through named, bounded, single-producer/single-consumer rings. This
project models what the Rust and C code does above the DPDK calls, and proves
properties of it for every input, every state and every run.

DPDK itself appears as three small contracts: a pool is a finite set of 32767 mbufs
from which an allocation fails exactly when none is free; a ring is a bounded queue
under a registered name, whose operations are atomic; the NIC is a nondeterministic
source of frames and a sink that accepts any number of the packets it is offered. An
allocation resets the length of an mbuf and leaves the bytes in its data room: an mbuf
"without data" is one with `data_len` 0.

`dafny verify dfyconfig.toml` checks everything.

## How the model is organised

**The transition system** (`Places`, `Dataplane`). A state says which mbufs are at
which place (pool, NIC, a local vector, a queue, a ring, or *lost*: owned by nobody).
A step is one allocation, free, ring operation, queue push or pop, or NIC burst.
Program counters make the functions of `rxbin.rs` and `txbin.rs` and the methods of
`Packetiser` take their steps in their own order, and any interleaving of the engine,
the packetiser, the NIC and the clients is a run. `Ownership`, `Fifo`, `Roles`, `Flow`,
`Delivery`, `Clients` and `Fairness` prove what holds on every run, and `UnfairRuns`
exhibits runs on which fairness fails. `Calls`, `PacketiserCalls`, `Clients` and
`Collection` run each function as a method over a `Node`, whose ghost trace shows that it
takes steps of the transition system only, and state what the whole call does.

**The stand-alone parts.** `Registry` (client ids, client map, ring names), `Routing`
(the routing table), `RoundRobin` and `FairCalls` (the schedule of `store_outgoing` and when
it is fair), `MbufEditing` (in-place byte editing), `BulkFree`, `TransmitQueue`,
`IcmpChecksum`, `SymmetricRss`, `Ipv4Text` and `Decimal`. `Machine` holds the machine integers they share.

## What the proofs show about the code

- Every mbuf of the pool is in exactly one place in every reachable state, and the lost
  ones are exactly counted by a ledger of failed enqueues, successful dequeues, bulk
  enqueues and freed rings (`Delivery.EveryRunAccounted`). Since every one of these is
  final, a run moves at most 32767 packets off rings in its whole life.
- `dequeue` and `dequeue_burst` hand the caller its own placeholder and lose the packet,
  so no mbuf with data, be it a frame or what a client wrote, ever reaches a packetiser
  queue, the ring to the engine or a ring to a client (`Delivery.OnlyPlaceholders`).
- Nothing ever pushes to `FROM_PACKETISER`, whose length `get_from_packetiser` takes as
  the number of packets to fetch. So nothing is fetched and nothing is sent to the NIC
  (`Delivery.OutboundIsStuck`). The partition therefore holds from the initial state on
  every run, with no assumption about the NIC; from an arbitrary state it holds while
  NIC sends take all packets or none, and a single send keeps it exactly then
  (`Ownership.SendKeepsPartitionIff`).
- `enqueue_bulk` takes the length of the vector it has just drained, so
  `send_to_engine_bulk` always reports 0 and loses the packet it popped.
- `remove_clients` frees a client's rings but not what they hold: those mbufs are lost
  (`Clients.RemoveClients`), and no later channel of the same name finds them
  (`Clients.RunUnnamed`).
- With no free mbuf at all, `store_outgoing` returns Ok, since it then makes no round;
  with 1 to 512 free mbufs and a client it returns Err, takes nothing and restores the
  pool (`Collection.StoreOutgoingScarce`).
- `_pkt_icmp_checksum` accumulates in 16 bits, so the folds find no carry: the result is
  c + 9 modulo 2^16 on a little-endian host, a valid update exactly when c >= 0xfff7. The
  request 08 00 f6 ff 01 00 00 00 gets a wrong reply (`IcmpChecksum.WrongReply`).
  The intended equation 3 of section 3 of RFC 1624 is correct for every message whose
  bytes besides type and checksum are not all zero, and otherwise gives the other zero.
- `read_data_slice` counts the offset twice, so the second of two bytes is refused
  (`MbufEditing.RefusedSlice`); `write_data_slice` may write and still report an error.
- A refused `resize` by n followed by one by -n removes data
  (`MbufEditing.LossAfterRefusal`).
- Dropping one side of a route alone always breaks the mirror between the two maps
  (`Routing.MirrorBroken`).
- The ids of `add_client` are 2, 3, 4, ... for the first 65534 calls; the next call wraps
  to 0 (`Registry.WrappedRun`), and from then on the answer 0 of the routing table may be
  a client (`Routing.IssuedIdsZeroIff`). Key 1 never enters the client map, even then,
  because its ring names are taken.
- Past the wrap an id can be listed twice, since a failed add keeps its id. Its client is
  then visited twice a round, and `store_outgoing` can be unfair: `UnfairRuns.WrappedUnfair`
  is a run that ends so. Calls are fair, whatever waits in rings of 511 and whatever is
  free, exactly when in two rounds over the list no registered id gets two ahead of another
  before it has come 511 times (`FairCalls.FairIff`); 65534 adds ensure that.
- `configure` tells the device `num_cores` queues but sets up the number rounded up, so
  with an odd number of cores the last queue is refused.

Where comments and code disagree the code is followed: `dequeue` is documented to
deliver a packet, `send_to_engine_bulk` to send many, and the round-robin comment says
nothing about the buffers set aside, which fix the number of rounds.

## Model

| member | source | states |
|---|---|---|
| `Places.MoveKeepsPartition` | l3enginelib/src/apis/mbuf.rs:116-125 | Any hand-over of mbufs that takes them out of one place and puts them into another keeps every one of the 32767 pool mbufs in exactly one place |
| `Places.CopyKeepsPartitionIff` | l3enginelib/src/apis/port.rs:188-205 | Leaving mbufs with two owners keeps the partition exactly when no mbuf is involved |
| `Places.PlaceBound` | l3enginelib/src/apis/mempool.rs:14 | Under the partition no place holds more mbufs than the pool has |
| `Ownership.RunKeepsPartition` | l3enginelib/src/apis/memring.rs:121-226 | From any partitioned state, every interleaved run whose NIC sends take all or none keeps the partition |
| `Ownership.SendKeepsPartitionIff` | l3enginelib/src/apis/port.rs:188-205 | A NIC send keeps the partition if and only if the NIC takes all packets or none; otherwise an accepted mbuf is both queued and free |
| `Ownership.SendLengthFits` | l3enginelib/src/apis/port.rs:190-200 | The cast of the vector length to u16 never truncates |
| `Ownership.RunLosses` | l3enginelib/src/apis/memring.rs:121-226 | On every run the growth of the lost set equals failed enqueues + successful dequeues + mbufs given to bulk enqueue + contents of freed rings |
| `Ownership.Lifetime` | l3enginelib/src/apis/memring.rs:121-226 | From the initial state the ledger is exact and never exceeds 32767 |
| `Delivery.EveryRunAccounted` | l3enginelib/src/main.rs:228-263 | From the initial state partition and ledger hold on every run with no assumption about the NIC |
| `Delivery.DataNeverArrives` | l3enginelib/src/apis/memring.rs:134-197 | On every run an mbuf with data is on its way from the NIC or a client to a ring, free, lost, or held by the NIC or a client, and nowhere else |
| `Delivery.OnlyPlaceholders` | l3enginelib/src/apis/memring.rs:134-197 | On every run the packetiser's two queues, its ring to the engine and the rings to its clients hold mbufs without data only |
| `Delivery.RunIdle` | l3enginelib/src/rxbin.rs:63-93 | On every run the engine's outbound queues stay empty and no NIC send happens |
| `Delivery.OutboundIsStuck` | l3enginelib/src/rxbin.rs:63-70 | On every run at most 511 mbufs ever get onto C2E-1, these very mbufs are still there in order, and none left through the NIC |
| `Fifo.RunFifo` | l3enginelib/src/apis/memring.rs:62-145 | On every run each ring holds exactly the mbufs, with their contents, that were sent and not yet received, in order, at most 511 of them, and refuses an mbuf if and only if it is full |
| `Roles.RunKeepsRoles` | l3enginelib/src/apis/memring.rs:273-314 | On every run each ring operation is by the one process in charge of that end, and the client map stays consistent with the ring names |
| `Roles.SingleProducerSingleConsumer` | l3enginelib/src/apis/memring.rs:40-42 | On every run, wrapped ids included, all enqueues on a ring are by one process, all dequeues by one process, and the two differ; a client process is known by its id |
| `Flow.WhereFramesAre` | l3enginelib/src/txbin.rs:25-42 | In any state with the flow, ring and role invariants the frames on E2C-1 are an in-order subsequence of the wanted ones, all wanted frames are accounted for, and no call ever lost more than one |
| `Flow.RunFlow` | l3enginelib/src/txbin.rs:25-42 | From any state that has the invariant, on every run the wanted frames are, in order of arrival, tried, held, queued or still in the burst, refusals are at most calls, and the call at hand has lost at most one packet, and none while it is still sending |
| `Flow.NicToRing` | l3enginelib/src/rxbin.rs:12-61 | On every run the frames on E2C-1 are an in-order subsequence of the NIC's frames with non-zero ether type; through, refused, held, queued and unsorted ones account for all; at no point has a single call lost more than one, and a loss happens only on a full ring |
| `Flow.AcceptedIsNonZero` | l3enginelib/src/rxbin.rs:21-27 | Of any packets those kept are, in order and as often as they came, exactly the frames with a non-zero ether type |
| `Calls.TracedIsRun` | l3enginelib/src/main.rs:245-263 | The trace behind every call is a legal run of the transition system ending in the node's state |
| `Calls.Node.GetExternalPkts` | l3enginelib/src/rxbin.rs:12-61 | Exactly the mbufs of the burst whose frame has a non-zero ether type are queued, in order and as often as they occur, and exactly the others freed, in order; the NIC keeps the rest; the burst length is returned |
| `Calls.Node.SendToPacketiser` | l3enginelib/src/txbin.rs:25-42 | As many queued packets as fit go onto the ring in order and are counted; if there are more, the next one is lost and the rest stay queued |
| `Calls.Node.GetFromPacketiser` | l3enginelib/src/rxbin.rs:63-93 | The placeholders, limited by announced length, pool and ring, go out in order; the packets taken off are lost; exactly the unused placeholders return to the pool; the answer is the announced length less those taken |
| `Calls.Node.SendPktsOut` | l3enginelib/src/txbin.rs:10-23 | The out queue is drained in order; what the NIC accepts is on the NIC, and everything is freed as well unless it accepts all; no other place changes |
| `PacketiserCalls.ReceiveBurst` | l3enginepacketiser/src/packetiser/mod.rs:153-184 | Error exactly when strict and the pool is empty; otherwise the front packets of the ring are lost, as many placeholders are queued, and the unused ones return to the pool |
| `PacketiserCalls.SendOutgoingPackets` | l3enginepacketiser/src/packetiser/mod.rs:285-298 | The longest prefix of the out queue that fits the ring is on it in order and all the rest is lost |
| `PacketiserCalls.SendToEngineBulk` | l3enginepacketiser/src/packetiser/mod.rs:187-201 | The answer is always 0; the front packet, if any, is lost and nothing else changes |
| `PacketiserCalls.ForwardIncomingPackets` | l3enginepacketiser/src/packetiser/mod.rs:244-252 | Going by what the routing table's history of adds and removals answers, it panics exactly at the first packet without a header, without a known client or with a full ring; until then each client's ring has got exactly the packets routed to it, in order; the failing packet is held, freed or lost respectively, and nothing else changes |
| `PacketiserCalls.RouteOf` | l3enginepacketiser/src/packetiser/mod.rs:247-249 | A packet with a header goes to the id of the latest add for its destination since the last removal of that address, to id 0 if there is none; one without a header has no route |
| `Clients.RemoveClients` | l3enginepacketiser/src/packetiser/mod.rs:141-151 | It panics exactly on an id that is not allocated; a registered client's two rings, named by its number, are empty afterwards, what they held is lost, C2E first, and nothing else moved |
| `Clients.AddClient` | l3enginelib/src/apis/memring.rs:240-250 | No mbuf moves, and a new channel starts with two empty rings, provided unregistered names hold nothing |
| `Clients.RunUnnamed` | l3enginelib/src/apis/memring.rs:220-226 | On every run a ring name that is not registered holds nothing, whatever removed clients left behind |
| `RoundRobin.NextVisit` | l3enginepacketiser/src/packetiser/mod.rs:272-281 | For any list of ids, repeated ones included, each visit keeps every client's count at min(visits, backlog), and keeps fairness at every point so far if registered ids come in turn |
| `RoundRobin.VisitMidway` | l3enginepacketiser/src/packetiser/mod.rs:275-279 | A visit keeps the schedule, first-in-first-out order of every ring, and the balance: the out queue is only appended to, with one placeholder of the pool per packet taken |
| `RoundRobin.CollectEndsWell` | l3enginepacketiser/src/packetiser/mod.rs:272-282 | From any point on schedule the two loops end as a whole call should, Ok or Err |
| `RoundRobin.OutgoingCollected` | l3enginepacketiser/src/packetiser/mod.rs:255-283 | A whole call answers Ok exactly when the pool lasts; every ring gives from the front and those packets are lost; the out queue is only appended to, and no other buffer leaves the pool; on Ok each client gave exactly min(visits, backlog), on Err the spare buffers are used up; if registered ids come in turn it is fair at every point, early exit included |
| `RoundRobin.EvenVisits` | l3enginepacketiser/src/packetiser/mod.rs:273-274 | If in two rounds over the list one id is never two ahead of another before it has come a given number of times, so it is in any number of rounds |
| `FairCalls.FairIff` | l3enginepacketiser/src/packetiser/mod.rs:272-281 | All calls with a list of ids and a set of registered ids, for every backlog of at most 511 packets a ring and every pool that 32767 mbufs allow, are fair at every point if and only if in two rounds over the list no registered id gets two ahead of another before it has come 511 times |
| `FairCalls.DistinctIsEven` | l3enginepacketiser/src/packetiser/mod.rs:272-281 | Distinct ids come in turn |
| `FairCalls.GivenIsSum` | l3enginepacketiser/src/packetiser/mod.rs:272-281 | For distinct ids the packets given are the sum over the clients of min(visits, backlog) |
| `FairCalls.AmpleOutgoing` | l3enginepacketiser/src/packetiser/mod.rs:257-282 | For distinct ids, with more free mbufs than 512 plus the sum of min(512, backlog), the call succeeds and every registered client gives exactly min(512, backlog) packets from the front of its ring |
| `RoundRobin.ScarceCall` | l3enginepacketiser/src/packetiser/mod.rs:257-282 | With a client and at most 512 free mbufs a call succeeds exactly when none is free; either way it takes nothing, leaves rings, lost packets and out queue alone, and restores the pool |
| `RoundRobin.AmpleCall` | l3enginepacketiser/src/packetiser/mod.rs:257-282 | With more free mbufs than 512 plus all the packets that 512 rounds can take a call succeeds and every client gives min(512, backlog) packets, 512 for each time it is listed |
| `RoundRobin.GivenMonotone` | l3enginepacketiser/src/packetiser/mod.rs:273-281 | The packets given never decrease along the schedule |
| `Collection.SeenTaking` | l3enginepacketiser/src/packetiser/mod.rs:275-277 | The two steps of a visit that takes a packet are one visit of the schedule and leave every other client's ring alone |
| `Collection.StoreOutgoing` | l3enginepacketiser/src/packetiser/mod.rs:255-283 | For any registry of a run, repeated ids included, pool, rings, out queue, lost packets and answer become what the schedule makes of them: each ring has lost its front, the out queue was appended to, and the call ends early exactly when the pool does not last; the registry and every other place stay as they were |
| `Collection.StoreOutgoingScarce` | l3enginepacketiser/src/packetiser/mod.rs:255-283 | With a client and 1 to 512 free mbufs the call returns Err, takes nothing from any client and restores the pool |
| `Collection.StoreOutgoingAmple` | l3enginepacketiser/src/packetiser/mod.rs:255-283 | With distinct ids and more free mbufs than 512 plus the sum of min(512, backlog) the call returns Ok and every registered client's ring has lost exactly its first min(512, backlog) packets |
| `Fairness.RunCall` | l3enginepacketiser/src/packetiser/mod.rs:272-281 | On every run, whatever steps in between, each id has been visited as often as the schedule says, and each visit took a packet or missed |
| `Fairness.FairWhenEven` | l3enginepacketiser/src/packetiser/mod.rs:272-281 | On every run, at every point of every call with registered ids that come in turn, of two registered clients that had a packet at each of their visits neither has given two packets more than the other |
| `Fairness.FairOnEveryRun` | l3enginepacketiser/src/packetiser/mod.rs:272-281 | On every run with at most 65534 adds, at every point of every call, the same for any two listed clients |
| `UnfairRuns.WrappedUnfair` | l3enginepacketiser/src/packetiser/mod.rs:123-139 | A legal run from the initial state, with 65537 adds, that ends inside a call in which client 2 has given two packets more than client 3, though both had one at each of their visits |
| `UnfairRuns.UnevenRun` | l3enginepacketiser/src/packetiser/mod.rs:272-281 | For every registry that adds and removals make, if two registered ids are out of turn in two rounds, before the one has come 511 times, there is such an unfair run with that registry |
| `UnfairRuns.FairRunsIff` | l3enginepacketiser/src/packetiser/mod.rs:272-281 | For every registry that adds and removals make and that lists no registered id more than 255 times, all runs with it are fair if and only if registered ids come in turn |
| `UnfairRuns.RegistryRun` | l3enginepacketiser/src/packetiser/mod.rs:123-151 | Every registry that adds and removals make is reached by a run that leaves the pool full and all queues and rings empty |
| `Fairness.DistinctOnRun` | l3enginepacketiser/src/packetiser/mod.rs:123-151 | On every run with at most 65534 adds the allocated ids are distinct |
| `Fairness.RunReg` | l3enginepacketiser/src/packetiser/mod.rs:123-151 | The registry in every reachable state is the one its adds and removals make |
| `Registry.NameInjective` | l3enginelib/src/apis/memring.rs:62-100 | A ring name determines its direction and its client id |
| `Registry.NameText` | l3enginelib/src/apis/memring.rs:67-100 | The names in full: "C2E-" or "E2C-" and the decimal id, so those of the packetiser are "C2E-1" and "E2C-1" |
| `Dataplane.OwnPair` | l3enginelib/src/apis/memring.rs:273-311 | The packetiser receives on "E2C-1" and sends to the engine on "C2E-1" |
| `Registry.PickedKey` | l3enginepacketiser/src/packetiser/mod.rs:123-135 | Once id 0 is taken, an add reuses the least unallocated positive id below the last one if there is one; otherwise it takes the next one, modulo 2^16 |
| `Registry.Packetiser.AddClient` | l3enginepacketiser/src/packetiser/mod.rs:123-139 | The scan loop and the channel creation compute the next registry value; a failed creation leaves map and names alone but keeps the id |
| `Registry.Packetiser.RemoveClients` | l3enginepacketiser/src/packetiser/mod.rs:141-151 | It panics exactly on an id that is not allocated; otherwise its first occurrence, its channel and its ring names go |
| `Registry.RunConsistent` | l3enginelib/src/apis/memring.rs:333-361 | After any run of adds and removals, past the u16 bound too: registered names are exactly those of mapped clients and channel 1, each client has its own channel, mapped ids are allocated, and id 1 is never mapped |
| `Registry.RunFresh` | l3enginepacketiser/src/packetiser/mod.rs:123-151 | Within 65534 adds the k-th add picks k + 1 whatever was removed, and allocated ids are distinct and at least 2 |
| `Registry.FreshIff` | l3enginepacketiser/src/packetiser/mod.rs:126-135 | The k-th add picks k + 1 throughout a run if and only if it has at most 65534 adds; the 65535th picks 0 |
| `Registry.WrappedRun` | l3enginepacketiser/src/packetiser/mod.rs:132-135 | In a run of 65535 adds the last one picks id 0 |
| `Registry.NoCollision` | l3enginelib/src/apis/memring.rs:240-250 | After at most 65534 adds a channel is created if and only if there is memory for both rings: names do not collide |
| `Registry.NoCollisionIff` | l3enginelib/src/apis/memring.rs:240-250 | With memory, a further add succeeds after every run of n adds if and only if n is at most 65534 |
| `Registry.ListedTwice` | l3enginepacketiser/src/packetiser/mod.rs:123-139 | After 65537 adds in a row the list ends 0, 1, 2, so id 2 is listed twice, and 2 and 3 are registered |
| `Registry.MapAgrees` | l3enginelib/src/apis/memring.rs:333-361 | Within the bound the client map holds exactly the allocated ids whose own add succeeded |
| `Routing.LookupFromHistory` | l3enginepacketiser/src/packetiser/mod.rs:47-73 | A lookup answers the latest add for the address since its last removal by address, and 0 if there is none |
| `Routing.IssuedIdsZeroIff` | l3enginepacketiser/src/packetiser/mod.rs:68-73 | With the ids a run of the allocator has issued, the answer 0 means exactly "no route", for every history of the table, if and only if there were at most 65534 adds |
| `Routing.MirrorKeptIff` | l3enginepacketiser/src/packetiser/mod.rs:47-58 | An operation keeps the two maps mutual inverses if and only if it binds two unbound or mutually bound sides, or removes nothing |
| `Routing.DisciplinedMirror` | l3enginepacketiser/src/packetiser/mod.rs:47-58 | On every run that binds unbound sides and removes bound pairs by both removals the maps stay mutual inverses |
| `Routing.RoutingTable.IdFromIp` | l3enginepacketiser/src/packetiser/mod.rs:68-73 | The answer is the id of the latest add for the address since its last removal by address, in the order the table's methods were called, and 0 if there is none |
| `Routing.MirrorBroken` | l3enginepacketiser/src/packetiser/mod.rs:52-54 | After one add and a removal by id the maps are not inverse and the address still finds the id |
| `MbufEditing.ScriptRefines` | l3enginelib/src/apis/mbuf.rs:142-295 | Every script of edits shows in the buffer what it makes of a plain sequence with unknown bytes where gaps were opened, gives the same reports, and leaves the headroom and all bytes beyond the largest window it reaches alone |
| `MbufEditing.EditRefines` | l3enginelib/src/apis/mbuf.rs:142-295 | One edit does the same to buffer and sequence, reports alike, and leaves every byte outside the data window alone |
| `MbufEditing.ExtendThenShrink` | l3enginelib/src/apis/mbuf.rs:152-197 | Opening a gap and closing it restores the data and the tailroom |
| `MbufEditing.ResizeThenBack` | l3enginelib/src/apis/mbuf.rs:201-207 | Resizing by n and then by -n restores the data if and only if n fits the tailroom or there are not n bytes at the offset |
| `MbufEditing.LossAfterRefusal` | l3enginelib/src/apis/mbuf.rs:201-207 | In a full mbuf of the pool, with 2048 bytes of data, the resize by 1 is refused and the resize by -1 then removes the first byte |
| `MbufEditing.ShrinkThenInsert` | l3enginelib/src/apis/mbuf.rs:152-197 | Removing bytes, extending at the same place and writing them back restores the data |
| `MbufEditing.Insert` | l3enginelib/src/apis/mbuf.rs:274-295 | Extending and writing inserts the bytes; the write reports Ok exactly when twice the offset is at most the old length |
| `MbufEditing.SliceAccess` | l3enginelib/src/apis/mbuf.rs:224-265 | A slice is accepted exactly when offset < data_len and 2 * offset + size <= data_len, and then lies inside the data; an item exactly when offset < data_len and offset + size <= data_len |
| `MbufEditing.SliceIsData` | l3enginelib/src/apis/mbuf.rs:260-264 | An accepted slice has the count asked for and is the bytes of the data from the offset on |
| `MbufEditing.ItemIsData` | l3enginelib/src/apis/mbuf.rs:236-239 | An accepted item is the bytes of the data from the offset on |
| `MbufEditing.AccessErrors` | l3enginelib/src/apis/mbuf.rs:224-258 | An offset not inside the data is reported with the data length; any other refusal with the bytes asked for and the bytes there are from the offset on |
| `MbufEditing.ErrorValues` | l3enginelib/src/apis/mbuf.rs:224-289 | Every error value of the three accesses on an input that tells its two numbers apart, the wrapped one included |
| `MbufEditing.RefusedSlice` | l3enginelib/src/apis/mbuf.rs:245-258 | In an mbuf of the pool with two bytes of data the second one lies inside the data and is refused as a slice |
| `MbufEditing.Mbuf.Extend` | l3enginelib/src/apis/mbuf.rs:152-171 | The overlapping move and the wrapping u16 and u32 sums compute the extended image; a refused call changes nothing |
| `MbufEditing.Mbuf.Shrink` | l3enginelib/src/apis/mbuf.rs:177-197 | The same for shrinking |
| `MbufEditing.Mbuf.Resize` | l3enginelib/src/apis/mbuf.rs:201-207 | It is the extension or the shrinking that the sign asks for |
| `MbufEditing.Mbuf.Truncate` | l3enginelib/src/apis/mbuf.rs:211-220 | The data is cut, and a length that is not smaller is refused |
| `MbufEditing.Mbuf.WriteDataSlice` | l3enginelib/src/apis/mbuf.rs:274-295 | Bytes change exactly when they fit, whatever is answered; the answer is exact, the wrapping subtraction in the error value included, and a slice it returns is the bytes just written |
| `MbufEditing.Mbuf.RunScript` | l3enginelib/src/apis/mbuf.rs:142-295 | Any script run in place shows the edited text, returns its reports and touches nothing outside the largest window it reaches |
| `MbufEditing.FromBytes` | l3enginelib/src/apis/mbuf.rs:82-87 | It succeeds exactly with a free mbuf and 1 to 2048 bytes, and then the data is the input |
| `BulkFree.FreeBatches` | l3enginelib/src/apis/mod.rs:229-254 | The batches concatenate to the input in order, none is empty, all go to the first mbuf's pool, and there is one per mbuf of another pool plus one |
| `BulkFree.MbufFreeBulk` | l3enginelib/src/apis/mbuf.rs:331-358 | The same for any list, the empty one included; every mbuf returns to its own pool if and only if all share the first one's |
| `BulkFree.HomeIff` | l3enginelib/src/apis/mbuf.rs:336-351 | Puts that all name one pool return every mbuf home exactly when all mbufs came from it |
| `TransmitQueue.OutQueueInvolution` | l3enginelib/src/txbin.rs:22 | Flipping the lowest bit pairs queues without fixed points and undoes itself |
| `TransmitQueue.PairedIff` | l3enginelib/src/apis/port.rs:86-94 | The pairing stays within the queues if and only if their number is even |
| `TransmitQueue.Port.Configure` | l3enginelib/src/apis/port.rs:55-135 | The device is told the number of cores, unrounded; success exactly when it agrees and that number is even (or 65535, which rounds to no queue); then every receive queue has its own transmit queue |
| `IcmpChecksum.PktIcmpChecksum` | dpdk-sys/src/shim.c:266-274 | The code as written adds the request word and 1 modulo 2^16 |
| `IcmpChecksum.Eqn3Reply` | dpdk-sys/src/shim.c:266-274 | For every valid echo request of any length, equation 3 of RFC 1624 gives a reply that sums to a zero, and to the proper one exactly when other bytes are not all zero |
| `IcmpChecksum.AsWrittenReply` | dpdk-sys/src/shim.c:266-274 | The code as written gives such a reply if and only if the old checksum plus the request word carries |
| `IcmpChecksum.WrongReply` | dpdk-sys/src/shim.c:266-274 | An eight-byte valid echo request whose reply does not check out |
| `IcmpChecksum.WrittenVersusEqn3` | dpdk-sys/src/shim.c:271-272 | The code agrees with equation 3 exactly when c >= 0xfff7 on a little-endian host and is one too large otherwise |
| `IcmpChecksum.SwappedSum` | dpdk-sys/src/shim.c:269-270 | The word sums in the two byte orders differ by a factor 256 modulo 0xffff |
| `IcmpChecksum.ByteOrderIndependent` | dpdk-sys/src/shim.c:269-270 | Whether a message checks out does not depend on the host's byte order |
| `IcmpChecksum.SameReplyBytes` | dpdk-sys/src/shim.c:269-270 | Hosts of both byte orders produce the same reply bytes |
| `SymmetricRss.HashOfXor` | l3enginelib/src/apis/port.rs:37-41 | Under any key of period 16 the hash of an input that fits is, bit by bit, the parity of the xor of its words |
| `SymmetricRss.HashOfOneBit` | l3enginelib/src/apis/port.rs:37-41 | Under any key a single set bit hashes to the 32 key bits from its position on |
| `SymmetricRss.HashLinear` | l3enginelib/src/apis/port.rs:37-41 | Under any key the hash of a xor is the xor of the hashes |
| `SymmetricRss.ZeroHashIsZeroWord` | l3enginelib/src/apis/port.rs:37-41 | If the pattern of such a key has odd weight, only the zero word hashes to zero |
| `SymmetricRss.AlikeIff` | l3enginelib/src/apis/port.rs:37-41 | Under such a key two inputs hash alike if and only if their words have the same xor |
| `SymmetricRss.SameHashIff` | l3enginelib/src/apis/port.rs:37-41 | The 40-byte key is such a key: two inputs hash alike if and only if their words have the same xor |
| `SymmetricRss.SymmetricFlow` | l3enginelib/src/apis/port.rs:63-66 | Both directions of a flow hash alike, for IPv4, IPv6 and any tuple that fits |
| `SymmetricRss.LongestInput` | l3enginelib/src/apis/port.rs:37-41 | The key serves inputs of at most 18 words, the 36-byte IPv6 tuple |
| `Decimal.ValueOfPrint` | l3enginelib/src/apis/memring.rs:98 | Reading a printed number gives the number back |
| `Decimal.PrintText` | l3enginelib/src/apis/memring.rs:98 | A printed number ends in the character of "0123456789" that its remainder by ten names, behind the printed quotient if there is one |
| `Decimal.PrintInjective` | l3enginelib/src/apis/memring.rs:72 | Different numbers print differently |
| `Ipv4Text.RoundTrip` | dpdk-sys/src/shim.c:306-322 | Parsing the printed form of any 32-bit address, whatever non-digit follows, gives the address back |
| `Ipv4Text.PrintFits` | dpdk-sys/src/shim.c:150-154 | The printed text has 7 to 15 characters, so the 16-byte limit never cuts |
| `Ipv4Text.ParseDotted` | dpdk-sys/src/shim.c:306-322 | Any four dotted numbers below 2^32 parse to their low bytes: out-of-range octets are accepted |
| `Ipv4Text.ParseIff` | dpdk-sys/src/shim.c:306-322 | The parser answers an address if and only if the text starts with four numerals (white space, optional sign, digits) joined by dots, and it is that of their low bytes |
| `Ipv4Text.ParseRefuses` | dpdk-sys/src/shim.c:311-318 | A null text, a text with fewer than four dotted numbers and one whose fourth number is something else are refused |
| `Ipv4Text.UnsignedExtremes` | dpdk-sys/src/shim.c:315 | A minus sign negates modulo 2^32, and a number of 2^64 or more reads as 2^32 - 1 |
| `Ipv4Text.OneAddress` | dpdk-sys/src/shim.c:150-322 | 0x0A0102FF prints as "10.1.2.255" and is parsed back from it; "10.1.2.x" is refused |
| `Ipv4Text.PrintParsed` | dpdk-sys/src/shim.c:150-154 | Printing what was parsed gives the dotted text back if and only if all four numbers are bytes |
| `Ipv4Text.DottedInjective` | dpdk-sys/src/shim.c:152-153 | A dotted text determines its four numbers |

## Left out

- DPDK internals: EAL set-up and clean-up, memzones, mempool caches, device calls. A pool allocation fails exactly when the pool is empty, ring operations are atomic, and a ring made with room for 512 holds 511.
- The two engine threads of `main.rs:89-114`: they are never launched; the engine is the sequential loop of `main.rs:245-263`, but its four functions may come in any order.
- Header contents: ether type and body are data of a frame, a null header counts as ether type 0, and the destination address of a packet is an input of `ForwardIncomingPackets`; in runs with interleavings the client a packet is routed to is arbitrary. Stale bytes that `Ipv4Hdr` may read from an mbuf without data are not modelled.
- Roles.SingleProducerSingleConsumer: a client process is named by its id; after the wrap two processes may get the same id, one after the other, each with new rings under the same names.
- Calls.Node.GetExternalPkts: like the other calls it is an uninterrupted run; what holds under interleaving is stated by the lemmas about runs.
- Collection.StoreOutgoing: run without interruption; `Fairness.FairWhenEven` has the interleavings.
- UnfairRuns.FairRunsIff: for lists that name a registered id more than 255 times `Fairness.FairWhenEven` and `UnfairRuns.UnevenRun` give a sufficient and a necessary condition only, because how many packets a client can send while a call goes on is bounded by the pool.
- Unwinding after a panic and the destructors it runs: the packetiser then stops for good, keeping what it holds.
- Client processes that use a ring after `remove_clients` freed it, and mbufs a client dequeues, which are lost in the model as in `dequeue`.
- `recv_from_clients`, `send_to_clients`, `send_bulk`, `receive_bulk` and `alloc_bulk`: other callers of the same ring and pool operations, which nothing in the repository calls.
- Overflow checks of debug builds: additions and subtractions wrap as in a release build, where a checked build would panic; `offset + len` on usize is taken not to overflow. The burst size is the one of builds without the debug feature, 512.
- `sscanf` beyond what `%u` and literal dots do in the C locale on a 64-bit host.
- Multi-segment mbufs and reference counts: the code handles single-segment, singly owned buffers only.
- `lookup_by_id` and `lookup_by_ip` of the routing table: membership tests on the two maps.
- ARP handling, `Ipv4Hdr`, the smoltcp wrappers, the ZeroMQ handshake, signal handling, logging and the errno tables: field copies, foreign calls or input and output.
