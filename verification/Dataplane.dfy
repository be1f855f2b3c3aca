/** The two processes, the NIC and the clients as one transition system.

    A step is one action on shared state: an allocation, a free, a ring operation,
    a queue push or pop, a NIC burst. Program counters make each function of the
    engine and each method of the packetiser run in its own order; any
    interleaving of the parties is a run. */
module Dataplane {
  import opened Places
  import opened Registry
  import opened Machine

  const BURST_MAX: nat := 512
  const RX_BURST_MAX: nat := 32

  /** A DPDK ring created with room for 512 holds 511. */
  const RING_CAPACITY: nat := 512
  const RING_USABLE: nat := RING_CAPACITY - 1

  datatype Proc = Engine | Packetiser | Client(id: nat)

  /** What is worth remembering of a step. */
  datatype Event =
    | SendBegun
    | CollectBegun
    | FoundEmpty(id: nat)
    | Enqueue(who: Proc, ring: string, m: Mbuf, used: nat, ok: bool)
    | Dequeue(who: Proc, ring: string, m: Mbuf)
    | BulkEnqueue(who: Proc, ring: string, count: nat)
    | RingFreed(ring: string, count: nat)

  datatype EngPc =
    | EIdle
    | ERx                              // get_external_pkts: in the loop over pkts
    | ESend                            // send_to_packetiser: in the while loop
    | EGetAlloc(len: nat, done: nat)   // get_from_packetiser: allocating
    | EGetRecv                         // get_from_packetiser: receiving
    | EGetDrop                         // get_from_packetiser: dropping the rest
    | ETx                              // send_pkts_out: popping

  datatype PktPc =
    | PIdle
    | PRecvAlloc(strict: bool, done: nat)  // recv_from_engine_burst (strict) or store_incoming
    | PRecvDequeue(strict: bool)
    | PRecvPush(count: nat)
    | PDrop                                // dropping the vector at the end of a method
    | PFwd(left: nat)                      // forward_incoming_packets
    | POutAlloc(done: nat)                 // store_outgoing: setting buffers aside
    | POut(len: nat, round: nat, k: nat)   // store_outgoing: about to visit client k
    | POutHeld(len: nat, round: nat, k: nat)
    | PSendOut(left: nat)                  // send_outgoing_packets
    | PHalted                              // the process panicked or crashed

  datatype State = State(
    at: Store,
    eng: EngPc,
    pkt: PktPc,
    reg: Reg,
    rx: seq<Packet>,    // every frame the NIC has delivered, in order
    log: seq<Event>)

  /** Engine and packetiser have met: channel 1 exists and all mbufs are free. */
  function Init(): State {
    State(FullPool(), EIdle, PIdle, INITIAL, [], [])
  }

  datatype EngStep =
    | RxBurst(first: nat, pkts: seq<Packet>)
    | RxNext
    | SendCall | SendNext | SendEnqueue
    | GetCall | GetAlloc(i: nat) | GetReceive | GetDrop
    | TxCall | TxPop | TxSend(count: nat)

  datatype PktStep =
    | RecvCall(strict: bool) | RecvAlloc(i: nat) | RecvDequeue | RecvPush
    | DropNext
    | FwdCall | FwdNext(route: Option<nat>)
    | OutCall | OutAlloc(i: nat) | OutTake(i: nat) | OutReceive
    | SendOutCall | SendOutNext
    | BulkSend
    | AddClient(memE: bool, memC: bool) | RemoveClient(key: nat)

  /** The NIC driver and the client processes. */
  datatype EnvStep =
    | NicRefill(i: nat) | NicDone(i: nat)
    | ClientAlloc(id: nat, i: nat, body: nat) | ClientSend(id: nat) | ClientReceive(id: nat) | ClientDrop(id: nat)

  datatype Label = Eng(e: EngStep) | Pkt(p: PktStep) | Env(v: EnvStep)

  datatype Effect = Effect(
    transfers: seq<Transfer>,
    events: seq<Event>,
    eng: EngPc,
    pkt: PktPc,
    reg: Reg,
    rx: seq<Packet>)

  // ----- The ring operations of memring.rs -----

  const TO_PKT: string := RingName(E2C, PACKETISER_ID)
  const TO_ENG: string := RingName(C2E, PACKETISER_ID)

  /** The packetiser is its own pair's client: it receives on the one ring and sends
      on the other. */
  lemma OwnPair()
    ensures TO_PKT == "E2C-1" && TO_ENG == "C2E-1"
  {
    NameText(PACKETISER_ID);
  }

  function Used(at: Store, ring: string): nat {
    |Get(at, InRing(ring))|
  }

  predicate HasRoom(at: Store, ring: string) {
    Used(at, ring) < RING_USABLE
  }

  /** `Ring::enqueue` of the front mbuf of `from`: the mbuf is forgotten first, so
      on a full ring nobody is left to free it. */
  function EnqueueMove(at: Store, from: Place, ring: string): Transfer {
    Move(from, 0, 1, if HasRoom(at, ring) then InRing(ring) else Lost, Keep)
  }

  function EnqueueEvent(at: Store, who: Proc, from: Place, ring: string): Event
    requires Get(at, from) != []
  {
    Event.Enqueue(who, ring, Get(at, from)[0], Used(at, ring), HasRoom(at, ring))
  }

  /** `Ring::dequeue` and `dequeue_burst`: the ring's pointers are written to a
      temporary, so the dequeued mbufs are owned by nobody afterwards. */
  function DequeueMove(ring: string, count: nat): Transfer {
    Move(InRing(ring), 0, count, Lost, Keep)
  }

  function DequeueEvents(at: Store, who: Proc, ring: string, count: nat): (es: seq<Event>)
    requires count <= Used(at, ring)
    ensures |es| == count
  {
    seq(count, i requires 0 <= i < count => Event.Dequeue(who, ring, Get(at, InRing(ring))[i]))
  }

  // ----- The engine -----

  /** Only frames with a non-zero ether type go on to the packetiser. */
  predicate Wanted(p: Packet) {
    p.Frame? && p.etherType != 0
  }

  predicate EngEnabled(s: State, e: EngStep) {
    match e
    case RxBurst(first, pkts) =>
      && s.eng.EIdle? && |pkts| <= RX_BURST_MAX && first + |pkts| <= |Get(s.at, Nic)|
      && forall i :: 0 <= i < |pkts| ==> pkts[i].Frame?
    case RxNext => s.eng.ERx?
    case SendCall => s.eng.EIdle?
    case SendNext => s.eng.ESend? && Get(s.at, SendPkt) == []
    case SendEnqueue => s.eng.ESend? && Get(s.at, SendPkt) != []
    case GetCall => s.eng.EIdle?
    case GetAlloc(i) => s.eng.EGetAlloc? && (Get(s.at, Free) != [] ==> i < |Get(s.at, Free)|)
    case GetReceive => s.eng.EGetRecv?
    case GetDrop => s.eng.EGetDrop?
    case TxCall => s.eng.EIdle?
    case TxPop => s.eng.ETx? && Get(s.at, OutPkts) != []
    case TxSend(count) => s.eng.ETx? && Get(s.at, OutPkts) == [] && count <= |Get(s.at, TxVec)| % U16_RANGE
  }

  /** `Port::send`: if the NIC took less than everything, everything is freed,
      what the NIC took included. */
  function TxTransfers(n: nat, count: nat): seq<Transfer> {
    if count < n then [Copy(TxVec, count, Nic), Move(TxVec, 0, n, Free, Keep)]
    else [Move(TxVec, 0, n, Nic, Keep)]
  }

  function EngEffect(s: State, e: EngStep): Effect
    requires EngEnabled(s, e)
  {
    var same := Effect([], [], s.eng, s.pkt, s.reg, s.rx);
    match e
    case RxBurst(first, pkts) =>
      same.(transfers := [Move(Nic, first, |pkts|, RxVec, Fill(pkts))], eng := ERx, rx := s.rx + pkts)
    case RxNext =>
      if Get(s.at, RxVec) == [] then same.(eng := EIdle)
      else same.(transfers := [Move(RxVec, 0, 1, if Wanted(Get(s.at, RxVec)[0].pkt) then ToPacketiser else Free, Keep)])
    case SendCall =>
      same.(events := [SendBegun], eng := if Get(s.at, ToPacketiser) == [] then EIdle else ESend)
    case SendNext =>
      if Get(s.at, ToPacketiser) == [] then same.(eng := EIdle)
      else same.(transfers := [Move(ToPacketiser, 0, 1, SendPkt, Keep)])
    case SendEnqueue =>
      same.(transfers := [EnqueueMove(s.at, SendPkt, TO_PKT)],
            events := [EnqueueEvent(s.at, Engine, SendPkt, TO_PKT)],
            eng := if HasRoom(s.at, TO_PKT) then ESend else EIdle)
    case GetCall => same.(eng := EGetAlloc(|Get(s.at, FromPacketiser)|, 0))
    case GetAlloc(i) =>
      if s.eng.done < s.eng.len && Get(s.at, Free) != [] then
        same.(transfers := [Move(Free, i, 1, GetVec, Clear)], eng := EGetAlloc(s.eng.len, s.eng.done + 1))
      else same.(eng := EGetRecv)
    case GetReceive =>
      if Get(s.at, GetVec) == [] then same.(eng := EIdle)
      else if Used(s.at, TO_ENG) > 0 then
        same.(transfers := [DequeueMove(TO_ENG, 1), Move(GetVec, 0, 1, OutPkts, Keep)],
              events := DequeueEvents(s.at, Engine, TO_ENG, 1))
      else same.(eng := EGetDrop)
    case GetDrop =>
      if Get(s.at, GetVec) == [] then same.(eng := EIdle)
      else same.(transfers := [Move(GetVec, 0, 1, Free, Keep)])
    case TxCall => same.(eng := if Get(s.at, OutPkts) == [] then EIdle else ETx)
    case TxPop => same.(transfers := [Move(OutPkts, 0, 1, TxVec, Keep)])
    case TxSend(count) => same.(transfers := TxTransfers(|Get(s.at, TxVec)|, count), eng := EIdle)
  }

  // ----- The packetiser -----

  /** An allocation names a free mbuf whenever there is one. */
  predicate PickOk(s: State, i: nat) {
    Get(s.at, Free) != [] ==> i < |Get(s.at, Free)|
  }

  predicate PktEnabled(s: State, p: PktStep) {
    match p
    case RecvCall(_) => s.pkt.PIdle?
    case RecvAlloc(i) => s.pkt.PRecvAlloc? && PickOk(s, i)
    case RecvDequeue => s.pkt.PRecvDequeue?
    case RecvPush => s.pkt.PRecvPush?
    case DropNext => s.pkt.PDrop?
    case FwdCall => s.pkt.PIdle?
    case FwdNext(_) => s.pkt.PFwd?
    case OutCall => s.pkt.PIdle?
    case OutAlloc(i) => s.pkt.POutAlloc? && PickOk(s, i)
    case OutTake(i) => s.pkt.POut? && PickOk(s, i)
    case OutReceive => s.pkt.POutHeld? && s.pkt.k < |s.reg.ids| && Get(s.at, PktHeld) != []
    case SendOutCall => s.pkt.PIdle?
    case SendOutNext => s.pkt.PSendOut?
    case BulkSend => s.pkt.PIdle?
    case AddClient(_, _) => s.pkt.PIdle?
    case RemoveClient(_) => s.pkt.PIdle?
  }

  function Smaller(a: nat, b: nat): (r: nat)
    ensures r <= a && r <= b && (r == a || r == b)
  {
    if a <= b then a else b
  }

  /** `RingClientMap::send` of the front of i_bufqueue, then `unwrap`. No route to
      an IPv4 address means a null header is read. */
  function FwdEffect(s: State, route: Option<nat>): Effect
    requires s.pkt.PFwd?
  {
    var same := Effect([], [], s.eng, s.pkt, s.reg, s.rx);
    if s.pkt.left == 0 then same.(pkt := PIdle)
    else if Get(s.at, InBuf) == [] then same.(pkt := PHalted)
    else if route.None? then same.(transfers := [Move(InBuf, 0, 1, PktHeld, Keep)], pkt := PHalted)
    else if route.value !in s.reg.clients then
      same.(transfers := [Move(InBuf, 0, 1, Free, Keep)], pkt := PHalted)
    else
      var ring := s.reg.clients[route.value].engineToClient;
      same.(transfers := [EnqueueMove(s.at, InBuf, ring)],
            events := [EnqueueEvent(s.at, Packetiser, InBuf, ring)],
            pkt := if HasRoom(s.at, ring) then PFwd(s.pkt.left - 1) else PHalted)
  }

  /** One iteration of the round-robin loop up to its allocation. */
  function OutTakeEffect(s: State, i: nat): Effect
    requires s.pkt.POut?
  {
    var same := Effect([], [], s.eng, s.pkt, s.reg, s.rx);
    var POut(len, round, k) := s.pkt;
    if round >= len || s.reg.ids == [] then same.(pkt := PDrop)
    else if k >= |s.reg.ids| then same.(pkt := POut(len, round + 1, 0))
    else if Get(s.at, Free) == [] then same.(pkt := PDrop)
    else same.(transfers := [Move(Free, i, 1, PktHeld, Clear)], pkt := POutHeld(len, round, k))
  }

  /** `RingClientMap::receive` into the placeholder. */
  function OutReceiveEffect(s: State): Effect
    requires PktEnabled(s, OutReceive)
  {
    var same := Effect([], [], s.eng, POut(s.pkt.len, s.pkt.round, s.pkt.k + 1), s.reg, s.rx);
    var key := s.reg.ids[s.pkt.k];
    if key in s.reg.clients && Used(s.at, s.reg.clients[key].clientToEngine) > 0 then
      var ring := s.reg.clients[key].clientToEngine;
      same.(transfers := [DequeueMove(ring, 1), Move(PktHeld, 0, 1, OutBuf, Keep)],
            events := DequeueEvents(s.at, Packetiser, ring, 1))
    else same.(transfers := [Move(PktHeld, 0, 1, Free, Keep)], events := [FoundEmpty(key)])
  }

  /** `remove_clients`: dropping a channel frees its rings, not their contents. */
  function RemoveEffect(s: State, key: nat): Effect {
    var same := Effect([], [], s.eng, s.pkt, s.reg, s.rx);
    if key !in s.reg.ids then same.(pkt := PHalted)
    else if key !in s.reg.clients then same.(reg := Removed(s.reg, key))
    else
      var Channel(c2e, e2c) := s.reg.clients[key];
      var second := if c2e == e2c then 0 else Used(s.at, e2c);
      same.(transfers := [DequeueMove(c2e, Used(s.at, c2e)), DequeueMove(e2c, second)],
            events := [RingFreed(c2e, Used(s.at, c2e)), RingFreed(e2c, second)],
            reg := Removed(s.reg, key))
  }

  function PktEffect(s: State, p: PktStep): Effect
    requires PktEnabled(s, p)
  {
    var same := Effect([], [], s.eng, s.pkt, s.reg, s.rx);
    match p
    case RecvCall(strict) => same.(pkt := PRecvAlloc(strict, 0))
    case RecvAlloc(i) =>
      if s.pkt.done < BURST_MAX && Get(s.at, Free) != [] then
        same.(transfers := [Move(Free, i, 1, PktVec, Clear)], pkt := PRecvAlloc(s.pkt.strict, s.pkt.done + 1))
      else same.(pkt := PRecvDequeue(s.pkt.strict))
    case RecvDequeue =>
      if s.pkt.strict && Get(s.at, PktVec) == [] then same.(pkt := PIdle)
      else
        var count := Smaller(|Get(s.at, PktVec)|, Used(s.at, TO_PKT));
        same.(transfers := [DequeueMove(TO_PKT, count)],
              events := DequeueEvents(s.at, Packetiser, TO_PKT, count), pkt := PRecvPush(count))
    case RecvPush =>
      if s.pkt.count > 0 && Get(s.at, PktVec) != [] then
        same.(transfers := [Move(PktVec, 0, 1, InBuf, Keep)], pkt := PRecvPush(s.pkt.count - 1))
      else same.(pkt := PDrop)
    case DropNext =>
      if Get(s.at, PktVec) == [] then same.(pkt := PIdle)
      else same.(transfers := [Move(PktVec, 0, 1, Free, Keep)])
    case FwdCall => same.(pkt := PFwd(|Get(s.at, InBuf)|))
    case FwdNext(route) => FwdEffect(s, route)
    case OutCall => same.(events := [CollectBegun], pkt := POutAlloc(0))
    case OutAlloc(i) =>
      if s.pkt.done < BURST_MAX && Get(s.at, Free) != [] then
        same.(transfers := [Move(Free, i, 1, PktVec, Clear)], pkt := POutAlloc(s.pkt.done + 1))
      else same.(pkt := POut(s.pkt.done, 0, 0))
    case OutTake(i) => OutTakeEffect(s, i)
    case OutReceive => OutReceiveEffect(s)
    case SendOutCall => same.(pkt := PSendOut(|Get(s.at, OutBuf)|))
    case SendOutNext =>
      if s.pkt.left == 0 then same.(pkt := PIdle)
      else if Get(s.at, OutBuf) == [] then same.(pkt := PSendOut(s.pkt.left - 1))
      else same.(transfers := [EnqueueMove(s.at, OutBuf, TO_ENG)],
                 events := [EnqueueEvent(s.at, Packetiser, OutBuf, TO_ENG)], pkt := PSendOut(s.pkt.left - 1))
    case BulkSend =>
      // `for pkt in o_bufqueue.pop()` pops one packet, and `enqueue_bulk` asks for
      // the length of the vector it has just drained.
      if Get(s.at, OutBuf) == [] then same
      else same.(transfers := [Move(OutBuf, 0, 1, Lost, Keep)], events := [BulkEnqueue(Packetiser, TO_ENG, 1)])
    case AddClient(memE, memC) => same.(reg := Added(s.reg, memE, memC))
    case RemoveClient(key) => RemoveEffect(s, key)
  }

  // ----- The NIC and the clients -----

  predicate EnvEnabled(s: State, v: EnvStep) {
    match v
    case NicRefill(i) => i < |Get(s.at, Free)|
    case NicDone(i) => i < |Get(s.at, Nic)|
    case ClientAlloc(id, i, _) => id in s.reg.clients && i < |Get(s.at, Free)|
    case ClientSend(id) => id in s.reg.clients && Get(s.at, ClientVec(id)) != []
    case ClientReceive(id) => id in s.reg.clients && Used(s.at, s.reg.clients[id].engineToClient) > 0
    case ClientDrop(id) => Get(s.at, ClientVec(id)) != []
  }

  function EnvEffect(s: State, v: EnvStep): Effect
    requires EnvEnabled(s, v)
  {
    var same := Effect([], [], s.eng, s.pkt, s.reg, s.rx);
    match v
    case NicRefill(i) => same.(transfers := [Move(Free, i, 1, Nic, Keep)])
    case NicDone(i) => same.(transfers := [Move(Nic, i, 1, Free, Keep)])
    case ClientAlloc(id, i, body) => same.(transfers := [Move(Free, i, 1, ClientVec(id), Fill([Payload(id, body)]))])
    case ClientSend(id) =>
      var ring := s.reg.clients[id].clientToEngine;
      same.(transfers := [EnqueueMove(s.at, ClientVec(id), ring)],
            events := [EnqueueEvent(s.at, Client(id), ClientVec(id), ring)])
    case ClientReceive(id) =>
      var ring := s.reg.clients[id].engineToClient;
      same.(transfers := [DequeueMove(ring, 1)], events := DequeueEvents(s.at, Client(id), ring, 1))
    case ClientDrop(id) => same.(transfers := [Move(ClientVec(id), 0, 1, Free, Keep)])
  }

  // ----- Steps and runs -----

  predicate Enabled(s: State, l: Label) {
    match l
    case Eng(e) => EngEnabled(s, e)
    case Pkt(p) => PktEnabled(s, p)
    case Env(v) => EnvEnabled(s, v)
  }

  function EffectOf(s: State, l: Label): Effect
    requires Enabled(s, l)
  {
    match l
    case Eng(e) => EngEffect(s, e)
    case Pkt(p) => PktEffect(s, p)
    case Env(v) => EnvEffect(s, v)
  }

  /** Every step only moves mbufs that are where the step says. */
  lemma EngCanDo(s: State, e: EngStep)
    requires EngEnabled(s, e)
    ensures CanDoAll(s.at, EngEffect(s, e).transfers)
  {}

  lemma FwdCanDo(s: State, route: Option<nat>)
    requires s.pkt.PFwd?
    ensures CanDoAll(s.at, FwdEffect(s, route).transfers)
  {}

  lemma OutReceiveCanDo(s: State)
    requires PktEnabled(s, OutReceive)
    ensures CanDoAll(s.at, OutReceiveEffect(s).transfers)
  {}

  lemma RemoveCanDo(s: State, key: nat)
    ensures CanDoAll(s.at, RemoveEffect(s, key).transfers)
  {
    if key in s.reg.ids && key in s.reg.clients {
      var ts := RemoveEffect(s, key).transfers;
      Moved(s.at, ts[0]);
      DoTwo(s.at, ts[0], ts[1]);
    }
  }

  lemma PktCanDo(s: State, p: PktStep)
    requires PktEnabled(s, p)
    ensures CanDoAll(s.at, PktEffect(s, p).transfers)
  {
    match p
    case FwdNext(route) => FwdCanDo(s, route);
    case OutReceive => OutReceiveCanDo(s);
    case RemoveClient(key) => RemoveCanDo(s, key);
    case _ =>
  }

  lemma EnvCanDo(s: State, v: EnvStep)
    requires EnvEnabled(s, v)
    ensures CanDoAll(s.at, EnvEffect(s, v).transfers)
  {}

  lemma CanStep(s: State, l: Label)
    requires Enabled(s, l)
    ensures CanDoAll(s.at, EffectOf(s, l).transfers)
  {
    match l
    case Eng(e) => EngCanDo(s, e);
    case Pkt(p) => PktCanDo(s, p);
    case Env(v) => EnvCanDo(s, v);
  }

  function Next(s: State, l: Label): State
    requires Enabled(s, l)
  {
    CanStep(s, l);
    var e := EffectOf(s, l);
    State(DoAll(s.at, e.transfers), e.eng, e.pkt, e.reg, e.rx, s.log + e.events)
  }

  /** Only adds and removals change the registry. */
  lemma StepReg(s: State, l: Label)
    requires Enabled(s, l)
    ensures EffectOf(s, l).reg == match l
                                  case Pkt(AddClient(memE, memC)) => Added(s.reg, memE, memC)
                                  case Pkt(RemoveClient(key)) => Removed(s.reg, key)
                                  case _ => s.reg
  {}

  lemma OneMove(s: State, l: Label, t: Transfer)
    requires Enabled(s, l) && EffectOf(s, l).transfers == [t] && CanDo(s.at, t)
    ensures Next(s, l).at == Do(s.at, t)
  {
    DoOne(s.at, t);
  }

  /** What a step that pops one place and pushes another leaves behind. */
  lemma PopPushStep(s: State, l: Label, from: Place, to: Place)
    requires Enabled(s, l) && from != to && Get(s.at, from) != []
    requires EffectOf(s, l).transfers == [Move(from, 0, 1, to, Keep)]
    ensures Get(Next(s, l).at, from) == Get(s.at, from)[1..]
    ensures Get(Next(s, l).at, to) == Get(s.at, to) + [Get(s.at, from)[0]]
    ensures forall p :: p != from && p != to ==> Get(Next(s, l).at, p) == Get(s.at, p)
  {
    PopPush(s.at, from, to);
  }

  /** Each step of the run is enabled where it happens. */
  predicate Legal(s: State, run: seq<Label>)
    decreases |run|, 0
  {
    run == [] ||
    (Legal(s, run[..|run| - 1]) && Enabled(Exec(s, run[..|run| - 1]), run[|run| - 1]))
  }

  function Exec(s: State, run: seq<Label>): State
    requires Legal(s, run)
    decreases |run|, 1
  {
    if run == [] then s else Next(Exec(s, run[..|run| - 1]), run[|run| - 1])
  }

  lemma ExecOne(s: State, run: seq<Label>, l: Label)
    requires Legal(s, run) && Enabled(Exec(s, run), l)
    ensures Legal(s, run + [l]) && Exec(s, run + [l]) == Next(Exec(s, run), l)
  {
    assert (run + [l])[..|run|] == run;
  }
}
