/** The packetiser's methods, each run without interruption. */
module PacketiserCalls {
  import opened Places
  import opened Registry
  import opened Dataplane
  import opened Machine
  import opened Calls
  import Routing

  /** The front mbuf of `from` went to the back of `to`. */
  ghost predicate Shifted(at: Store, at': Store, from: Place, to: Place)
    requires Get(at, from) != []
  {
    && Get(at', from) == Get(at, from)[1..]
    && Get(at', to) == Get(at, to) + [Get(at, from)[0]]
    && Same(at, at', {from, to})
  }

  // ----- recv_from_engine_burst and store_incoming -----

  /** `count` packets are taken off the engine's ring and lost; as many empty
      placeholders are queued as incoming packets. */
  ghost predicate BurstTaken(at: Store, at': Store, count: nat) {
    var n := Smaller(BURST_MAX, |Get(at, Free)|);
    var ps := Placeholders(Get(at, Free), n);
    && count == Smaller(n, Used(at, TO_PKT))
    && Get(at', InBuf) == Get(at, InBuf) + ps[..count]
    && Get(at', InRing(TO_PKT)) == Get(at, InRing(TO_PKT))[count..]
    && Get(at', Lost) == Get(at, Lost) + Get(at, InRing(TO_PKT))[..count]
    && Get(at', Free) == Get(at, Free)[n..] + ps[count..]
    && Get(at', PktVec) == []
    && Same(at, at', {Free, PktVec, InBuf, InRing(TO_PKT), Lost})
  }

  ghost predicate Reserved(at: Store, at': Store, n: nat) {
    && n == Smaller(BURST_MAX, |Get(at, Free)|)
    && Get(at', PktVec) == Placeholders(Get(at, Free), n)
    && Get(at', Free) == Get(at, Free)[n..]
    && Same(at, at', {Free, PktVec})
  }

  ghost predicate Dequeued(at: Store, at': Store, count: nat) {
    && count == Smaller(|Get(at, PktVec)|, Used(at, TO_PKT))
    && Get(at', InRing(TO_PKT)) == Get(at, InRing(TO_PKT))[count..]
    && Get(at', Lost) == Get(at, Lost) + Get(at, InRing(TO_PKT))[..count]
    && Same(at, at', {InRing(TO_PKT), Lost})
  }

  ghost predicate Pushed(at: Store, at': Store, count: nat) {
    && count <= |Get(at, PktVec)|
    && Get(at', InBuf) == Get(at, InBuf) + Get(at, PktVec)[..count]
    && Get(at', PktVec) == Get(at, PktVec)[count..]
    && Same(at, at', {PktVec, InBuf})
  }

  ghost predicate VecDropped(at: Store, at': Store) {
    && Get(at', PktVec) == []
    && Get(at', Free) == Get(at, Free) + Get(at, PktVec)
    && Same(at, at', {PktVec, Free})
  }

  lemma BurstPhases(at0: Store, at1: Store, at2: Store, at3: Store, at4: Store, n: nat, count: nat)
    requires Reserved(at0, at1, n) && Dequeued(at1, at2, count) && Pushed(at2, at3, count) && VecDropped(at3, at4)
    ensures BurstTaken(at0, at4, count)
  {}

  method ReserveOne(node: Node)
    requires node.Valid() && node.s.pkt.PRecvAlloc? && node.s.pkt.done < BURST_MAX && Get(node.s.at, Free) != []
    modifies node
    ensures node.Valid() && node.Continues(old(node.run))
    ensures node.s.pkt == PRecvAlloc(old(node.s.pkt.strict), old(node.s.pkt.done) + 1)
    ensures Get(node.s.at, Free) == old(Get(node.s.at, Free))[1..]
    ensures Get(node.s.at, PktVec) == old(Get(node.s.at, PktVec)) + [Mbuf(old(Get(node.s.at, Free))[0].id, Blank)]
    ensures Same(old(node.s.at), node.s.at, {Free, PktVec})
  {
    node.AllocDo(Pkt(RecvAlloc(0)), PktVec);
  }

  method Reserve(node: Node, strict: bool) returns (ghost n: nat)
    requires node.Valid() && node.s.pkt.PIdle? && Get(node.s.at, PktVec) == []
    modifies node
    ensures node.Valid() && node.Continues(old(node.run)) && node.s.pkt == PRecvDequeue(strict)
    ensures Reserved(old(node.s.at), node.s.at, n)
  {
    ghost var was := node.s.at;
    ghost var free := Get(was, Free);
    node.Do(Pkt(RecvCall(strict)));
    n := 0;
    while node.s.pkt.PRecvAlloc? && node.s.pkt.done < BURST_MAX && Get(node.s.at, Free) != []
      invariant node.Valid() && node.Continues(old(node.run))
      invariant node.s.pkt == PRecvAlloc(strict, n) && n <= BURST_MAX && n <= |free|
      invariant Get(node.s.at, PktVec) == Placeholders(free, n) && Get(node.s.at, Free) == free[n..]
      invariant Same(was, node.s.at, {Free, PktVec})
      decreases |free| - n
    {
      OnePlaceholder(free, n);
      ReserveOne(node);
      n := n + 1;
    }
    node.Do(Pkt(RecvAlloc(0)));
  }

  lemma DequeueStep(s: State)
    requires PktEnabled(s, RecvDequeue) && !(s.pkt.strict && Get(s.at, PktVec) == [])
    ensures var count := Smaller(|Get(s.at, PktVec)|, Used(s.at, TO_PKT));
            var s' := Next(s, Pkt(RecvDequeue));
            s'.pkt == PRecvPush(count) && Dequeued(s.at, s'.at, count)
  {
    TakeFront(s.at, TO_PKT, Smaller(|Get(s.at, PktVec)|, Used(s.at, TO_PKT)));
  }

  lemma TakeFront(at: Store, name: string, count: nat)
    requires count <= Used(at, name)
    ensures CanDoAll(at, [DequeueMove(name, count)])
    ensures var at' := DoAll(at, [DequeueMove(name, count)]);
            var ring := Get(at, InRing(name));
            && Get(at', InRing(name)) == ring[count..]
            && Get(at', Lost) == Get(at, Lost) + ring[..count]
            && Same(at, at', {InRing(name), Lost})
  {
    var t := DequeueMove(name, count);
    var ring := Get(at, InRing(name));
    DoOne(at, t);
    Moved(at, t);
    assert ring[..0] + ring[count..] == ring[count..] && ring[0..count] == ring[..count];
  }

  method PushOne(node: Node)
    requires node.Valid() && node.s.pkt.PRecvPush? && node.s.pkt.count > 0 && Get(node.s.at, PktVec) != []
    modifies node
    ensures node.Valid() && node.Continues(old(node.run))
    ensures node.s.pkt == PRecvPush(old(node.s.pkt.count) - 1) && Shifted(old(node.s.at), node.s.at, PktVec, InBuf)
  {
    node.PopPushDo(Pkt(RecvPush), PktVec, InBuf);
  }

  method DropOne(node: Node)
    requires node.Valid() && node.s.pkt.PDrop? && Get(node.s.at, PktVec) != []
    modifies node
    ensures node.Valid() && node.Continues(old(node.run))
    ensures node.s.pkt.PDrop? && Shifted(old(node.s.at), node.s.at, PktVec, Free) && node.s.reg == old(node.s.reg)
  {
    node.PopPushDo(Pkt(DropNext), PktVec, Free);
  }

  method PushAll(node: Node, ghost count: nat)
    requires node.Valid() && node.s.pkt == PRecvPush(count) && count <= |Get(node.s.at, PktVec)|
    modifies node
    ensures node.Valid() && node.Continues(old(node.run)) && node.s.pkt.PDrop?
    ensures Pushed(old(node.s.at), node.s.at, count)
  {
    ghost var was := node.s.at;
    ghost var vec := Get(was, PktVec);
    ghost var i := 0;
    while node.s.pkt.PRecvPush? && node.s.pkt.count > 0
      invariant node.Valid() && node.Continues(old(node.run))
      invariant i <= count && node.s.pkt == PRecvPush(count - i)
      invariant Get(node.s.at, PktVec) == vec[i..] && Get(node.s.at, InBuf) == Get(was, InBuf) + vec[..i]
      invariant Same(was, node.s.at, {PktVec, InBuf})
      decreases count - i
    {
      PushOne(node);
      assert vec[i..][1..] == vec[i + 1..] && vec[..i + 1] == vec[..i] + [vec[i..][0]];
      i := i + 1;
    }
    node.Do(Pkt(RecvPush));
  }

  method DropVec(node: Node)
    requires node.Valid() && node.s.pkt.PDrop?
    modifies node
    ensures node.Valid() && node.Continues(old(node.run)) && node.s.pkt.PIdle?
    ensures VecDropped(old(node.s.at), node.s.at) && node.s.reg == old(node.s.reg)
  {
    ghost var was := node.s.at;
    ghost var vec := Get(was, PktVec);
    ghost var i := 0;
    while Get(node.s.at, PktVec) != []
      invariant node.Valid() && node.Continues(old(node.run)) && node.s.pkt.PDrop? && i <= |vec|
      invariant node.s.reg == old(node.s.reg)
      invariant Get(node.s.at, PktVec) == vec[i..] && Get(node.s.at, Free) == Get(was, Free) + vec[..i]
      invariant Same(was, node.s.at, {PktVec, Free})
      decreases |Get(node.s.at, PktVec)|
    {
      DropOne(node);
      assert vec[i..][1..] == vec[i + 1..] && vec[..i + 1] == vec[..i] + [vec[i..][0]];
      i := i + 1;
    }
    assert vec[..i] == vec;
    node.Do(Pkt(DropNext));
  }

  /** `recv_from_engine_burst` (strict) and `store_incoming` (not): the first one
      reports an error, and does nothing, exactly when no mbuf is free. */
  method ReceiveBurst(node: Node, strict: bool) returns (ok: bool, count: nat)
    requires node.Valid() && node.s.pkt.PIdle? && Get(node.s.at, PktVec) == []
    modifies node
    ensures node.Valid() && node.Continues(old(node.run)) && node.s.pkt.PIdle?
    ensures ok <==> !strict || old(Get(node.s.at, Free)) != []
    ensures BurstTaken(old(node.s.at), node.s.at, count)
  {
    ghost var at0 := node.s.at;
    ghost var n := Reserve(node, strict);
    ghost var at1 := node.s.at;
    if strict && Get(node.s.at, PktVec) == [] {
      node.Do(Pkt(RecvDequeue));
      EmptyBurst(at0, at1, n);
      return false, 0;
    }
    count := Smaller(|Get(node.s.at, PktVec)|, Used(node.s.at, TO_PKT));
    DequeueStep(node.s);
    node.Do(Pkt(RecvDequeue));
    ghost var at2 := node.s.at;
    PushAll(node, count);
    ghost var at3 := node.s.at;
    DropVec(node);
    BurstPhases(at0, at1, at2, at3, node.s.at, n, count);
    ok := true;
  }

  lemma EmptyBurst(at0: Store, at1: Store, n: nat)
    requires Reserved(at0, at1, n) && Get(at1, PktVec) == []
    ensures n == 0 && BurstTaken(at0, at1, 0) && Get(at0, Free) == []
  {}

  // ----- send_outgoing_packets and send_to_engine_bulk -----

  /** The first `k` outgoing packets are on the ring to the engine, the others are
      lost; `k` is what fitted. */
  ghost predicate SentOut(at: Store, at': Store, k: nat) {
    var queue := Get(at, OutBuf);
    && Used(at, TO_ENG) <= RING_USABLE && k == Smaller(|queue|, RING_USABLE - Used(at, TO_ENG))
    && Get(at', OutBuf) == []
    && Get(at', InRing(TO_ENG)) == Get(at, InRing(TO_ENG)) + queue[..k]
    && Get(at', Lost) == Get(at, Lost) + queue[k..]
    && Same(at, at', {OutBuf, InRing(TO_ENG), Lost})
  }

  method SendOutOne(node: Node) returns (ghost room: bool)
    requires node.Valid() && node.s.pkt.PSendOut? && node.s.pkt.left > 0 && Get(node.s.at, OutBuf) != []
    modifies node
    ensures node.Valid() && node.Continues(old(node.run))
    ensures node.s.pkt == PSendOut(old(node.s.pkt.left) - 1) && room == old(HasRoom(node.s.at, TO_ENG))
    ensures Shifted(old(node.s.at), node.s.at, OutBuf, if room then InRing(TO_ENG) else Lost)
  {
    room := HasRoom(node.s.at, TO_ENG);
    node.PopPushDo(Pkt(SendOutNext), OutBuf, if room then InRing(TO_ENG) else Lost);
  }

  method BeginSendOut(node: Node)
    requires node.Valid() && node.s.pkt.PIdle?
    modifies node
    ensures node.Valid() && node.Continues(old(node.run))
    ensures node.s.at == old(node.s.at) && node.s.pkt == PSendOut(|Get(node.s.at, OutBuf)|)
  {
    node.Do(Pkt(SendOutCall));
  }

  method EndSendOut(node: Node)
    requires node.Valid() && node.s.pkt == PSendOut(0)
    modifies node
    ensures node.Valid() && node.Continues(old(node.run))
    ensures node.s.at == old(node.s.at) && node.s.pkt.PIdle?
  {
    node.Do(Pkt(SendOutNext));
  }

  /** `i` packets have been tried. */
  ghost predicate SendingOut(at: Store, at': Store, i: nat, k: nat) {
    var queue := Get(at, OutBuf);
    && i <= |queue| && Used(at, TO_ENG) <= RING_USABLE && k == Smaller(i, RING_USABLE - Used(at, TO_ENG))
    && Get(at', OutBuf) == queue[i..]
    && Get(at', InRing(TO_ENG)) == Get(at, InRing(TO_ENG)) + queue[..k]
    && Get(at', Lost) == Get(at, Lost) + queue[k..i]
    && Same(at, at', {OutBuf, InRing(TO_ENG), Lost})
  }

  lemma Pieces(queue: seq<Mbuf>, i: nat, k: nat)
    requires k <= i < |queue|
    ensures queue[i..][1..] == queue[i + 1..] && queue[i..][0] == queue[i]
    ensures queue[..i + 1] == queue[..i] + [queue[i]]
    ensures queue[k..i + 1] == queue[k..i] + [queue[i]]
  {}

  lemma SendingNext(at0: Store, at: Store, at': Store, i: nat, k: nat)
    requires SendingOut(at0, at, i, k) && i < |Get(at0, OutBuf)|
    requires Shifted(at, at', OutBuf, if HasRoom(at, TO_ENG) then InRing(TO_ENG) else Lost)
    ensures SendingOut(at0, at', i + 1, if HasRoom(at, TO_ENG) then k + 1 else k)
  {
    var queue := Get(at0, OutBuf);
    Pieces(queue, i, k);
    if HasRoom(at, TO_ENG) {
      assert k == i;
      assert queue[k..i] == queue[k + 1..i + 1] == [];
    } else {
      assert i >= k == RING_USABLE - Used(at0, TO_ENG);
    }
  }

  /** `send_outgoing_packets` always answers Ok. */
  method SendOutgoingPackets(node: Node) returns (ghost k: nat)
    requires node.Valid() && node.s.pkt.PIdle? && Used(node.s.at, TO_ENG) <= RING_USABLE
    modifies node
    ensures node.Valid() && node.Continues(old(node.run)) && node.s.pkt.PIdle?
    ensures SentOut(old(node.s.at), node.s.at, k)
  {
    ghost var was := node.s.at;
    ghost var queue := Get(was, OutBuf);
    BeginSendOut(node);
    ghost var i := 0;
    k := 0;
    while node.s.pkt.PSendOut? && node.s.pkt.left > 0
      invariant node.Valid() && node.Continues(old(node.run))
      invariant SendingOut(was, node.s.at, i, k) && node.s.pkt == PSendOut(|queue| - i)
      decreases |queue| - i
    {
      ghost var at := node.s.at;
      ghost var room := SendOutOne(node);
      SendingNext(was, at, node.s.at, i, k);
      i, k := i + 1, if room then k + 1 else k;
    }
    assert queue[k..i] == queue[k..];
    EndSendOut(node);
  }

  /** `send_to_engine_bulk` always answers 0: it pops one packet, if there is one,
      and loses it. */
  method SendToEngineBulk(node: Node) returns (sent: nat)
    requires node.Valid() && node.s.pkt.PIdle?
    modifies node
    ensures node.Valid() && node.Continues(old(node.run)) && node.s.pkt.PIdle? && sent == 0
    ensures old(Get(node.s.at, OutBuf)) == [] ==> node.s.at == old(node.s.at)
    ensures old(Get(node.s.at, OutBuf)) != [] ==>
              && Get(node.s.at, OutBuf) == old(Get(node.s.at, OutBuf))[1..]
              && Get(node.s.at, Lost) == old(Get(node.s.at, Lost)) + [old(Get(node.s.at, OutBuf))[0]]
              && Same(old(node.s.at), node.s.at, {OutBuf, Lost})
  {
    if Get(node.s.at, OutBuf) != [] {
      node.PopPushDo(Pkt(BulkSend), OutBuf, Lost);
    } else {
      node.Do(Pkt(BulkSend));
    }
    sent := 0;
  }

  // ----- forward_incoming_packets -----

  /** The packets among the first `n` that are routed to client `id`, in order. */
  function Routed(queue: seq<Mbuf>, routes: seq<Option<nat>>, n: nat, id: nat): seq<Mbuf>
    requires n <= |queue| && n <= |routes|
  {
    if n == 0 then []
    else Routed(queue, routes, n - 1, id) + if routes[n - 1] == Some(id) then [queue[n - 1]] else []
  }

  function RingOf(s: State, id: nat): Place
    requires id in s.reg.clients
  {
    InRing(s.reg.clients[id].engineToClient)
  }

  /** Packet `i` can be forwarded after the `i` packets before it. */
  predicate Deliverable(s: State, routes: seq<Option<nat>>, i: nat)
    requires i <= |Get(s.at, InBuf)| && i < |routes|
  {
    && routes[i].Some? && routes[i].value in s.reg.clients
    && |Get(s.at, RingOf(s, routes[i].value))| + |Routed(Get(s.at, InBuf), routes, i, routes[i].value)| < RING_USABLE
  }

  /** A ring that some client receives on. */
  ghost predicate ReceivesOn(reg: Reg, p: Place) {
    exists id :: id in reg.clients && p == InRing(reg.clients[id].engineToClient)
  }

  /** Every client's ring has got its own among the first `n` packets, in order; the
      registry, and all places but those rings and `ps`, are as before. */
  ghost predicate RingsGot(s: State, s': State, routes: seq<Option<nat>>, n: nat, ps: set<Place>)
    requires n <= |Get(s.at, InBuf)| && n <= |routes|
  {
    && s'.reg == s.reg
    && (forall id :: id in s.reg.clients ==>
          Get(s'.at, RingOf(s, id)) == Get(s.at, RingOf(s, id)) + Routed(Get(s.at, InBuf), routes, n, id))
    && (forall p :: p !in ps && !ReceivesOn(s.reg, p) ==> Get(s'.at, p) == Get(s.at, p))
  }

  /** The first `n` packets were forwarded. */
  ghost predicate Forwarded(s: State, s': State, routes: seq<Option<nat>>, n: nat)
    requires n <= |Get(s.at, InBuf)| && n <= |routes|
  {
    RingsGot(s, s', routes, n, {InBuf}) && Get(s'.at, InBuf) == Get(s.at, InBuf)[n..]
  }

  /** Where a packet ends up that cannot be delivered. */
  function Stray(s: State, r: Option<nat>): Place {
    if r.None? then PktHeld else if r.value !in s.reg.clients then Free else Lost
  }

  /** The first `n` packets were forwarded and the next one went astray: it is still
      held if it has no header to read, freed if its client is unknown, and lost if the
      ring is full. */
  ghost predicate Stopped(s: State, s': State, routes: seq<Option<nat>>, n: nat)
    requires n < |Get(s.at, InBuf)| && n < |routes|
  {
    var stray := if routes[n].None? then PktHeld else if routes[n].value !in s.reg.clients then Free else Lost;
    && RingsGot(s, s', routes, n, {InBuf, stray}) && Get(s'.at, InBuf) == Get(s.at, InBuf)[n + 1..]
    && Get(s'.at, stray) == Get(s.at, stray) + [Get(s.at, InBuf)[n]]
  }

  lemma DistinctRings(r: Reg, id: nat, id': nat)
    requires Consistent(r) && id in r.clients && id' in r.clients
    requires r.clients[id].engineToClient == r.clients[id'].engineToClient
    ensures id == id'
  {
    NameInjective(E2C, id, E2C, id');
  }

  lemma FrontOf(queue: seq<Mbuf>, i: nat)
    requires i < |queue|
    ensures queue[i..][1..] == queue[i + 1..] && queue[i..][0] == queue[i]
  {}

  lemma ForwardOne(s: State, now: State, next: State, routes: seq<Option<nat>>, i: nat)
    requires Consistent(s.reg) && i < |Get(s.at, InBuf)| && i < |routes| && Forwarded(s, now, routes, i)
    requires Deliverable(s, routes, i) && next.reg == now.reg
    requires Shifted(now.at, next.at, InBuf, RingOf(s, routes[i].value))
    ensures Forwarded(s, next, routes, i + 1)
  {
    var id := routes[i].value;
    var queue := Get(s.at, InBuf);
    FrontOf(queue, i);
    forall other | other in s.reg.clients
      ensures Get(next.at, RingOf(s, other)) == Get(s.at, RingOf(s, other)) + Routed(queue, routes, i + 1, other)
    {
      if other != id && RingOf(s, other) == RingOf(s, id) {
        DistinctRings(s.reg, other, id);
      }
    }
  }

  /** A change away from all rings leaves what they got. */
  lemma RingsKept(s: State, now: State, next: State, routes: seq<Option<nat>>, n: nat, ps: set<Place>)
    requires n <= |Get(s.at, InBuf)| && n <= |routes| && RingsGot(s, now, routes, n, {InBuf}) && next.reg == now.reg
    requires Same(now.at, next.at, ps) && InBuf in ps && forall name :: InRing(name) !in ps
    ensures RingsGot(s, next, routes, n, ps)
  {
    forall id | id in s.reg.clients
      ensures Get(next.at, RingOf(s, id)) == Get(now.at, RingOf(s, id))
    {
      assert RingOf(s, id) !in ps;
    }
  }

  lemma StopOne(s: State, now: State, next: State, routes: seq<Option<nat>>, i: nat)
    requires i < |Get(s.at, InBuf)| && i < |routes| && Forwarded(s, now, routes, i) && next.reg == now.reg
    requires Shifted(now.at, next.at, InBuf, Stray(s, routes[i]))
    ensures Stopped(s, next, routes, i)
  {
    var stray := Stray(s, routes[i]);
    FrontOf(Get(s.at, InBuf), i);
    RingsKept(s, now, next, routes, i, {InBuf, stray});
    assert Get(now.at, stray) == Get(s.at, stray);
  }

  /** Forward one packet: it reaches its ring, or it goes astray and the process
      panics. */
  method ForwardStep(node: Node, r: Option<nat>) returns (ok: bool)
    requires node.Valid() && node.s.pkt.PFwd? && node.s.pkt.left > 0 && Get(node.s.at, InBuf) != []
    modifies node
    ensures node.Valid() && node.Continues(old(node.run)) && node.s.reg == old(node.s.reg)
    ensures ok <==> && r.Some? && r.value in node.s.reg.clients
                    && |old(Get(node.s.at, RingOf(node.s, r.value)))| < RING_USABLE
    ensures node.s.pkt == if ok then PFwd(old(node.s.pkt.left) - 1) else PHalted
    ensures Shifted(old(node.s.at), node.s.at, InBuf, if ok then RingOf(node.s, r.value) else Stray(old(node.s), r))
  {
    ok := r.Some? && r.value in node.s.reg.clients && HasRoom(node.s.at, node.s.reg.clients[r.value].engineToClient);
    node.PopPushDo(Pkt(FwdNext(r)), InBuf, if ok then RingOf(node.s, r.value) else Stray(node.s, r));
  }

  method BeginForward(node: Node)
    requires node.Valid() && node.s.pkt.PIdle?
    modifies node
    ensures node.Valid() && node.Continues(old(node.run))
    ensures node.s.at == old(node.s.at) && node.s.reg == old(node.s.reg) && node.s.pkt == PFwd(|Get(node.s.at, InBuf)|)
  {
    node.Do(Pkt(FwdCall));
  }

  method EndForward(node: Node)
    requires node.Valid() && node.s.pkt == PFwd(0)
    modifies node
    ensures node.Valid() && node.Continues(old(node.run))
    ensures node.s.at == old(node.s.at) && node.s.reg == old(node.s.reg) && node.s.pkt.PIdle?
  {
    node.Do(Pkt(FwdNext(None)));
  }

  lemma DeliverableNow(s: State, now: State, routes: seq<Option<nat>>, i: nat)
    requires i < |Get(s.at, InBuf)| && i < |routes| && Forwarded(s, now, routes, i)
    ensures var r := routes[i];
            Deliverable(s, routes, i)
            <==> r.Some? && r.value in now.reg.clients && |Get(now.at, RingOf(now, r.value))| < RING_USABLE
  {}

  /** The first `n` packets can all be delivered, and have been. */
  ghost predicate Forwarding(s: State, now: State, routes: seq<Option<nat>>, n: nat) {
    && n <= |routes| == |Get(s.at, InBuf)| && Consistent(s.reg)
    && now.pkt == PFwd(|routes| - n)
    && Forwarded(s, now, routes, n) && AllDeliverable(s, routes, n)
  }

  ghost predicate AllDeliverable(s: State, routes: seq<Option<nat>>, n: nat)
    requires n <= |routes| == |Get(s.at, InBuf)|
  {
    forall i :: 0 <= i < n ==> Deliverable(s, routes, i)
  }

  lemma ForwardedOrStopped(s: State, now: State, next: State, routes: seq<Option<nat>>, n: nat, ok: bool)
    requires Forwarding(s, now, routes, n) && n < |routes| && next.reg == now.reg
    requires var r := routes[n];
             && (ok <==> r.Some? && r.value in now.reg.clients && |Get(now.at, RingOf(now, r.value))| < RING_USABLE)
             && next.pkt == (if ok then PFwd(|routes| - n - 1) else PHalted)
             && Shifted(now.at, next.at, InBuf, if ok then RingOf(now, r.value) else Stray(now, r))
    ensures ok <==> Deliverable(s, routes, n)
    ensures if ok then Forwarding(s, next, routes, n + 1) else Stopped(s, next, routes, n)
  {
    DeliverableNow(s, now, routes, n);
    if ok {
      ForwardOne(s, now, next, routes, n);
      OneMoreDeliverable(s, routes, n);
    } else {
      StopOne(s, now, next, routes, n);
    }
  }

  lemma OneMoreDeliverable(s: State, routes: seq<Option<nat>>, n: nat)
    requires n < |routes| == |Get(s.at, InBuf)| && AllDeliverable(s, routes, n) && Deliverable(s, routes, n)
    ensures AllDeliverable(s, routes, n + 1)
  {}

  method ForwardNext(node: Node, ghost was: State, ghost routes: seq<Option<nat>>, r: Option<nat>, ghost n: nat)
    returns (ok: bool)
    requires node.Valid() && Forwarding(was, node.s, routes, n) && n < |routes| && r == routes[n]
    modifies node
    ensures node.Valid() && node.Continues(old(node.run))
    ensures ok <==> Deliverable(was, routes, n)
    ensures if ok then Forwarding(was, node.s, routes, n + 1)
            else node.s.pkt.PHalted? && Stopped(was, node.s, routes, n)
  {
    ghost var now := node.s;
    ok := ForwardStep(node, r);
    ForwardedOrStopped(was, now, node.s, routes, n, ok);
  }

  /** The client the table names for each destination; none without a header. */
  function RoutesOf(t: Routing.Table, dsts: seq<Option<Routing.Ip>>): (routes: seq<Option<nat>>)
    ensures |routes| == |dsts|
  {
    seq(|dsts|, i requires 0 <= i < |dsts| =>
      if dsts[i].None? then None else Some(Routing.Lookup(t, dsts[i].value)))
  }

  /** The routes in terms of what was done to the table: a packet goes to the client
      of the latest add for its address since the last removal by address, to id 0
      if there is none, and nowhere without a header. */
  ghost predicate RoutedByHistory(history: seq<Routing.Op>, dsts: seq<Option<Routing.Ip>>, routes: seq<Option<nat>>) {
    && |routes| == |dsts|
    && (forall i, j: nat :: 0 <= i < |dsts| && dsts[i].Some? && Routing.LatestAdd(history, dsts[i].value, j)
                            ==> routes[i] == Some(history[j].id))
    && (forall i :: 0 <= i < |dsts| && dsts[i].Some? && (forall j: nat :: !Routing.LatestAdd(history, dsts[i].value, j))
                    ==> routes[i] == Some(0))
    && (forall i :: 0 <= i < |dsts| && dsts[i].None? ==> routes[i] == None)
  }

  lemma RoutesFromHistory(history: seq<Routing.Op>, dsts: seq<Option<Routing.Ip>>)
    ensures RoutedByHistory(history, dsts, RoutesOf(Routing.Run(history), dsts))
  {
    forall i | 0 <= i < |dsts| && dsts[i].Some?
      ensures forall j: nat :: Routing.LatestAdd(history, dsts[i].value, j)
                               ==> RoutesOf(Routing.Run(history), dsts)[i] == Some(history[j].id)
      ensures (forall j: nat :: !Routing.LatestAdd(history, dsts[i].value, j))
              ==> RoutesOf(Routing.Run(history), dsts)[i] == Some(0)
    {
      Routing.LookupFromHistory(history, dsts[i].value);
    }
  }

  /** One look at the routing table. */
  method RouteOf(table: Routing.RoutingTable, dst: Option<Routing.Ip>) returns (r: Option<nat>)
    requires table.Valid()
    ensures r == RoutesOf(table.Value(), [dst])[0] && RoutedByHistory(table.history, [dst], [r])
  {
    r := None;
    if dst.Some? {
      var id := table.IdFromIp(dst.value);
      r := Some(id);
    }
    RoutesFromHistory(table.history, [dst]);
    assert RoutesOf(table.Value(), [dst]) == [r];
  }

  /** `forward_incoming_packets`, packet `i` having destination `dsts[i]`: it routes
      by the table's history, forwards up to the first packet that cannot be delivered
      and panics there. It returns
      exactly when every packet can be delivered, and then each client's ring has
      got exactly the packets routed to it, in order. */
  method ForwardIncomingPackets(node: Node, table: Routing.RoutingTable, dsts: seq<Option<Routing.Ip>>)
    returns (panicked: bool, n: nat)
    requires node.Valid() && node.s.pkt.PIdle? && Consistent(node.s.reg) && |dsts| == |Get(node.s.at, InBuf)|
    requires table.Valid()
    modifies node
    ensures node.Valid() && node.Continues(old(node.run)) && n <= |dsts|
    ensures RoutedByHistory(table.history, dsts, RoutesOf(table.Value(), dsts))
    ensures AllDeliverable(old(node.s), RoutesOf(table.Value(), dsts), n)
    ensures panicked <==> n < |dsts|
    ensures panicked ==> node.s.pkt.PHalted? && !Deliverable(old(node.s), RoutesOf(table.Value(), dsts), n)
                         && Stopped(old(node.s), node.s, RoutesOf(table.Value(), dsts), n)
    ensures !panicked ==> node.s.pkt.PIdle? && Forwarded(old(node.s), node.s, RoutesOf(table.Value(), dsts), n)
  {
    ghost var was, routes := node.s, RoutesOf(table.Value(), dsts);
    BeginForward(node);
    n := 0;
    while n < |dsts|
      invariant node.Valid() && node.Continues(old(node.run)) && Forwarding(was, node.s, routes, n)
    {
      var r := RouteOf(table, dsts[n]);
      var ok := ForwardNext(node, was, routes, r, n);
      if !ok {
        RoutesFromHistory(table.history, dsts);
        return true, n;
      }
      n := n + 1;
    }
    EndForward(node);
    panicked := false;
    RoutesFromHistory(table.history, dsts);
  }
}
