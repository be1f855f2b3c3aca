/** Every ring is a bounded first-in-first-out queue, on every run. */
module Fifo {
  import opened Places
  import opened Registry
  import opened Dataplane
  import opened Machine

  function Pkts(ms: seq<Mbuf>): (r: seq<Packet>)
    ensures |r| == |ms|
  {
    seq(|ms|, i requires 0 <= i < |ms| => ms[i].pkt)
  }

  /** The mbufs put on a ring since it was created, in order. */
  function Sent(log: seq<Event>, ring: string): seq<Mbuf> {
    if log == [] then []
    else
      var before := Sent(log[..|log| - 1], ring);
      match log[|log| - 1]
      case Enqueue(_, r, m, _, ok) => if r == ring && ok then before + [m] else before
      case RingFreed(r, _) => if r == ring then [] else before
      case _ => before
  }

  /** The mbufs taken off a ring since it was created, in order. */
  function Received(log: seq<Event>, ring: string): seq<Mbuf> {
    if log == [] then []
    else
      var before := Received(log[..|log| - 1], ring);
      match log[|log| - 1]
      case Dequeue(_, r, m) => if r == ring then before + [m] else before
      case RingFreed(r, _) => if r == ring then [] else before
      case _ => before
  }

  lemma FilledPkts(ms: seq<Mbuf>, pkts: seq<Packet>)
    requires |ms| == |pkts|
    ensures Pkts(Refill(Fill(pkts), ms)) == pkts
  {}

  /** The mbufs of a burst have left the NIC and carry its packets. */
  ghost predicate Burst(at: Store, at': Store, first: nat, pkts: seq<Packet>) {
    var nic := Get(at, Nic);
    && first + |pkts| <= |nic|
    && Get(at', RxVec) == Refill(Fill(pkts), nic[first..first + |pkts|]) && Pkts(Get(at', RxVec)) == pkts
    && Get(at', Nic) == nic[..first] + nic[first + |pkts|..]
    && forall p :: p != Nic && p != RxVec ==> Get(at', p) == Get(at, p)
  }

  lemma BurstStep(s: State, first: nat, pkts: seq<Packet>)
    requires EngEnabled(s, RxBurst(first, pkts)) && Get(s.at, RxVec) == []
    ensures Burst(s.at, Next(s, Eng(RxBurst(first, pkts))).at, first, pkts)
  {
    BurstDone(s.at, first, pkts);
    OneMove(s, Eng(RxBurst(first, pkts)), Move(Nic, first, |pkts|, RxVec, Fill(pkts)));
  }

  lemma BurstDone(at: Store, first: nat, pkts: seq<Packet>)
    requires first + |pkts| <= |Get(at, Nic)| && Get(at, RxVec) == []
    ensures Burst(at, Do(at, Move(Nic, first, |pkts|, RxVec, Fill(pkts))), first, pkts)
  {
    BurstMove(at, Move(Nic, first, |pkts|, RxVec, Fill(pkts)));
    FilledPkts(Get(at, Nic)[first..first + |pkts|], pkts);
  }

  lemma BurstMove(at: Store, t: Transfer)
    requires CanDo(at, t) && t.Move? && Get(at, t.to) == []
    ensures Get(Do(at, t), t.to) == Refill(t.how, Get(at, t.from)[t.first..t.first + t.count])
    ensures Get(Do(at, t), t.from) == Get(at, t.from)[..t.first] + Get(at, t.from)[t.first + t.count..]
    ensures forall p :: p != t.from && p != t.to ==> Get(Do(at, t), p) == Get(at, p)
  {
    TargetAfter(at, t);
    SourceAfter(at, t);
  }

  /** The ring holds exactly the mbufs sent and not yet received, in order, and is
      never over-full. */
  predicate RingOk(at: Store, log: seq<Event>, ring: string) {
    && Sent(log, ring) == Received(log, ring) + Get(at, InRing(ring))
    && Used(at, ring) <= RING_USABLE
  }

  /** An enqueue fails on a full ring and on no other. */
  predicate Honest(e: Event) {
    e.Enqueue? ==> e.used <= RING_USABLE && (e.ok <==> e.used < RING_USABLE)
  }

  ghost predicate RingsOk(s: State) {
    && (forall ring :: RingOk(s.at, s.log, ring))
    && forall i :: 0 <= i < |s.log| ==> Honest(s.log[i])
  }

  // ----- One ring operation at a time -----

  lemma LogOne(log: seq<Event>, e: Event)
    ensures (log + [e])[..|log + [e]| - 1] == log && (log + [e])[|log + [e]| - 1] == e
  {}

  lemma EnqueueFifo(at: Store, log: seq<Event>, who: Proc, from: Place, name: string, ring: string)
    requires Get(at, from) != [] && !from.InRing? && from != Lost && RingOk(at, log, ring)
    ensures RingOk(Do(at, EnqueueMove(at, from, name)), log + [EnqueueEvent(at, who, from, name)], ring)
  {
    var t := EnqueueMove(at, from, name);
    LogOne(log, EnqueueEvent(at, who, from, name));
    Moved(at, t);
    if name == ring && HasRoom(at, ring) {
      assert Get(at, from)[0..1] == [Get(at, from)[0]];
    }
  }

  function Taken(es: seq<Event>): seq<Mbuf>
    requires forall i :: 0 <= i < |es| ==> es[i].Dequeue?
  {
    seq(|es|, i requires 0 <= i < |es| => es[i].m)
  }

  lemma {:induction false} DequeueBatch(log: seq<Event>, es: seq<Event>, name: string, ring: string)
    requires forall i :: 0 <= i < |es| ==> es[i].Dequeue? && es[i].ring == name
    ensures Sent(log + es, ring) == Sent(log, ring)
    ensures Received(log + es, ring) == Received(log, ring) + if name == ring then Taken(es) else []
  {
    if es == [] {
      assert log + es == log;
    } else {
      var last := |es| - 1;
      DequeueBatch(log, es[..last], name, ring);
      assert log + es == (log + es[..last]) + [es[last]];
      LogOne(log + es[..last], es[last]);
      assert Taken(es) == Taken(es[..last]) + [es[last].m];
    }
  }

  lemma DequeueLeaves(at: Store, name: string, count: nat, ring: string)
    requires count <= Used(at, name)
    ensures Get(Do(at, DequeueMove(name, count)), InRing(ring))
            == Get(at, InRing(ring))[if name == ring then count else 0..]
  {
    var held := Get(at, InRing(ring));
    assert held[0..] == held;
    if name == ring {
      assert held[..0] + held[count..] == held[count..];
    }
  }

  lemma DequeueFifo(at: Store, log: seq<Event>, who: Proc, name: string, count: nat, ring: string)
    requires count <= Used(at, name) && RingOk(at, log, ring)
    ensures RingOk(Do(at, DequeueMove(name, count)), log + DequeueEvents(at, who, name, count), ring)
  {
    var es := DequeueEvents(at, who, name, count);
    var held := Get(at, InRing(ring));
    DequeueBatch(log, es, name, ring);
    DequeueLeaves(at, name, count, ring);
    if name == ring {
      TakenFront(at, who, ring, count);
      MoveSplit(Received(log, ring), held, count);
    } else {
      assert held[0..] == held;
    }
  }

  lemma TakenFront(at: Store, who: Proc, ring: string, count: nat)
    requires count <= Used(at, ring)
    ensures Taken(DequeueEvents(at, who, ring, count)) == Get(at, InRing(ring))[..count]
  {}

  lemma MoveSplit(received: seq<Mbuf>, held: seq<Mbuf>, count: nat)
    requires count <= |held|
    ensures received + held == (received + held[..count]) + held[count..]
  {
    assert held == held[..count] + held[count..];
  }

  lemma Reassociate<T>(a: seq<T>, b: seq<T>, c: seq<T>)
    ensures a + (b + c) == (a + b) + c
  {}

  lemma FreeFifo(at: Store, log: seq<Event>, name: string, ring: string)
    requires RingOk(at, log, ring)
    ensures RingOk(Do(at, DequeueMove(name, Used(at, name))), log + [RingFreed(name, Used(at, name))], ring)
  {
    LogOne(log, RingFreed(name, Used(at, name)));
    DequeueLeaves(at, name, Used(at, name), ring);
    assert Get(at, InRing(ring))[0..] == Get(at, InRing(ring));
  }

  lemma ElsewhereFifo(at: Store, log: seq<Event>, t: Transfer, ring: string)
    requires CanDo(at, t) && !t.from.InRing? && !t.to.InRing? && RingOk(at, log, ring)
    ensures RingOk(Do(at, t), log, ring)
  {
    assert Get(Do(at, t), InRing(ring)) == Get(at, InRing(ring));
  }

  /** The event changes no ring: a bulk enqueue never gets anything onto one. */
  predicate OffRing(e: Event) {
    !e.Enqueue? && !e.Dequeue? && !e.RingFreed?
  }

  /** A step that leaves all rings alone. */
  predicate Quiet(ef: Effect) {
    && (forall i :: 0 <= i < |ef.transfers| ==> !ef.transfers[i].from.InRing? && !ef.transfers[i].to.InRing?)
    && (forall i :: 0 <= i < |ef.events| ==> OffRing(ef.events[i]))
  }

  lemma {:induction false} QuietLog(log: seq<Event>, es: seq<Event>, ring: string)
    requires forall i :: 0 <= i < |es| ==> OffRing(es[i])
    ensures Sent(log + es, ring) == Sent(log, ring) && Received(log + es, ring) == Received(log, ring)
  {
    if es == [] {
      assert log + es == log;
    } else {
      var last := |es| - 1;
      QuietLog(log, es[..last], ring);
      assert log + es == (log + es[..last]) + [es[last]];
      LogOne(log + es[..last], es[last]);
    }
  }

  lemma QuietFifo(s: State, ef: Effect, ring: string)
    requires CanDoAll(s.at, ef.transfers) && Quiet(ef) && RingOk(s.at, s.log, ring)
    ensures RingOk(DoAll(s.at, ef.transfers), s.log + ef.events, ring)
  {
    Untouched(s.at, ef.transfers, InRing(ring));
    QuietLog(s.log, ef.events, ring);
  }

  // ----- Every step -----

  /** The effect leaves `ring` a first-in-first-out queue. */
  predicate KeepsFifo(s: State, ef: Effect, ring: string)
    requires CanDoAll(s.at, ef.transfers)
  {
    RingOk(DoAll(s.at, ef.transfers), s.log + ef.events, ring)
  }

  lemma EngFifo(s: State, e: EngStep, ring: string)
    requires EngEnabled(s, e) && RingOk(s.at, s.log, ring)
    ensures CanDoAll(s.at, EngEffect(s, e).transfers) && KeepsFifo(s, EngEffect(s, e), ring)
  {
    EngCanDo(s, e);
    var ef := EngEffect(s, e);
    if e.SendEnqueue? {
      DoOne(s.at, ef.transfers[0]);
      EnqueueFifo(s.at, s.log, Engine, SendPkt, TO_PKT, ring);
    } else if e.GetReceive? && |ef.transfers| == 2 {
      DoTwo(s.at, ef.transfers[0], ef.transfers[1]);
      DequeueFifo(s.at, s.log, Engine, TO_ENG, 1, ring);
      ElsewhereFifo(Do(s.at, ef.transfers[0]), s.log + ef.events, ef.transfers[1], ring);
    } else {
      QuietFifo(s, ef, ring);
    }
  }

  lemma FwdFifo(s: State, route: Option<nat>, ring: string)
    requires s.pkt.PFwd? && RingOk(s.at, s.log, ring)
    ensures CanDoAll(s.at, FwdEffect(s, route).transfers) && KeepsFifo(s, FwdEffect(s, route), ring)
  {
    FwdCanDo(s, route);
    var ef := FwdEffect(s, route);
    if |ef.events| == 1 {
      DoOne(s.at, ef.transfers[0]);
      EnqueueFifo(s.at, s.log, Packetiser, InBuf, s.reg.clients[route.value].engineToClient, ring);
    } else {
      QuietFifo(s, ef, ring);
    }
  }

  lemma OutReceiveFifo(s: State, ring: string)
    requires PktEnabled(s, OutReceive) && RingOk(s.at, s.log, ring)
    ensures CanDoAll(s.at, OutReceiveEffect(s).transfers) && KeepsFifo(s, OutReceiveEffect(s), ring)
  {
    OutReceiveCanDo(s);
    var ef := OutReceiveEffect(s);
    if |ef.transfers| == 2 {
      var name := s.reg.clients[s.reg.ids[s.pkt.k]].clientToEngine;
      DoTwo(s.at, ef.transfers[0], ef.transfers[1]);
      DequeueFifo(s.at, s.log, Packetiser, name, 1, ring);
      ElsewhereFifo(Do(s.at, ef.transfers[0]), s.log + ef.events, ef.transfers[1], ring);
    } else {
      QuietFifo(s, ef, ring);
    }
  }

  /** Freeing both rings of a channel. */
  lemma FreeBoth(at: Store, log: seq<Event>, c2e: string, e2c: string, ring: string)
    requires RingOk(at, log, ring)
    ensures var second := if c2e == e2c then 0 else Used(at, e2c);
            var t, u := DequeueMove(c2e, Used(at, c2e)), DequeueMove(e2c, second);
            && CanDo(at, t) && CanDo(Do(at, t), u)
            && RingOk(Do(Do(at, t), u), log + [RingFreed(c2e, Used(at, c2e))] + [RingFreed(e2c, second)], ring)
  {
    var t := DequeueMove(c2e, Used(at, c2e));
    Moved(at, t);
    FreeFifo(at, log, c2e, ring);
    FreeFifo(Do(at, t), log + [RingFreed(c2e, Used(at, c2e))], e2c, ring);
  }

  lemma RemoveFifo(s: State, key: nat, ring: string)
    requires RingOk(s.at, s.log, ring)
    ensures CanDoAll(s.at, RemoveEffect(s, key).transfers) && KeepsFifo(s, RemoveEffect(s, key), ring)
  {
    RemoveCanDo(s, key);
    var ef := RemoveEffect(s, key);
    if |ef.transfers| == 2 {
      var Channel(c2e, e2c) := s.reg.clients[key];
      FreeBoth(s.at, s.log, c2e, e2c, ring);
      DoTwo(s.at, ef.transfers[0], ef.transfers[1]);
      assert s.log + [ef.events[0]] + [ef.events[1]] == s.log + ef.events;
    } else {
      QuietFifo(s, ef, ring);
    }
  }

  lemma RecvFifo(s: State, ring: string)
    requires PktEnabled(s, RecvDequeue) && RingOk(s.at, s.log, ring)
    ensures CanDoAll(s.at, PktEffect(s, RecvDequeue).transfers) && KeepsFifo(s, PktEffect(s, RecvDequeue), ring)
  {
    PktCanDo(s, RecvDequeue);
    var ef := PktEffect(s, RecvDequeue);
    if |ef.transfers| == 1 {
      DoOne(s.at, ef.transfers[0]);
      DequeueFifo(s.at, s.log, Packetiser, TO_PKT, ef.transfers[0].count, ring);
    } else {
      QuietFifo(s, ef, ring);
    }
  }

  lemma SendOutFifo(s: State, ring: string)
    requires PktEnabled(s, SendOutNext) && RingOk(s.at, s.log, ring)
    ensures CanDoAll(s.at, PktEffect(s, SendOutNext).transfers) && KeepsFifo(s, PktEffect(s, SendOutNext), ring)
  {
    PktCanDo(s, SendOutNext);
    var ef := PktEffect(s, SendOutNext);
    if |ef.transfers| == 1 {
      DoOne(s.at, ef.transfers[0]);
      EnqueueFifo(s.at, s.log, Packetiser, OutBuf, TO_ENG, ring);
    } else {
      QuietFifo(s, ef, ring);
    }
  }

  lemma PktQuiet(s: State, p: PktStep)
    requires PktEnabled(s, p)
    requires !p.RecvDequeue? && !p.SendOutNext? && !p.FwdNext? && !p.OutReceive? && !p.RemoveClient?
    ensures Quiet(PktEffect(s, p))
  {}

  lemma PktFifo(s: State, p: PktStep, ring: string)
    requires PktEnabled(s, p) && RingOk(s.at, s.log, ring)
    ensures CanDoAll(s.at, PktEffect(s, p).transfers) && KeepsFifo(s, PktEffect(s, p), ring)
  {
    match p
    case RecvDequeue => RecvFifo(s, ring);
    case SendOutNext => SendOutFifo(s, ring);
    case FwdNext(route) => FwdFifo(s, route, ring);
    case OutReceive => OutReceiveFifo(s, ring);
    case RemoveClient(key) => RemoveFifo(s, key, ring);
    case _ =>
      PktCanDo(s, p);
      PktQuiet(s, p);
      QuietFifo(s, PktEffect(s, p), ring);
  }

  lemma EnvFifo(s: State, v: EnvStep, ring: string)
    requires EnvEnabled(s, v) && RingOk(s.at, s.log, ring)
    ensures CanDoAll(s.at, EnvEffect(s, v).transfers) && KeepsFifo(s, EnvEffect(s, v), ring)
  {
    EnvCanDo(s, v);
    var ef := EnvEffect(s, v);
    DoOne(s.at, ef.transfers[0]);
    match v
    case ClientSend(id) =>
      EnqueueFifo(s.at, s.log, Client(id), ClientVec(id), s.reg.clients[id].clientToEngine, ring);
    case ClientReceive(id) =>
      DequeueFifo(s.at, s.log, Client(id), s.reg.clients[id].engineToClient, 1, ring);
    case _ => QuietFifo(s, ef, ring);
  }

  lemma StepFifo(s: State, l: Label, ring: string)
    requires Enabled(s, l) && RingOk(s.at, s.log, ring)
    ensures RingOk(Next(s, l).at, Next(s, l).log, ring)
  {
    match l
    case Eng(e) => EngFifo(s, e, ring);
    case Pkt(p) => PktFifo(s, p, ring);
    case Env(v) => EnvFifo(s, v, ring);
  }

  predicate AllHonest(es: seq<Event>) {
    forall i :: 0 <= i < |es| ==> Honest(es[i])
  }

  lemma PktHonest(s: State, p: PktStep)
    requires PktEnabled(s, p)
    requires Used(s.at, TO_ENG) <= RING_USABLE
    requires forall id :: id in s.reg.clients ==> Used(s.at, s.reg.clients[id].engineToClient) <= RING_USABLE
    ensures AllHonest(PktEffect(s, p).events)
  {}

  lemma StepHonest(s: State, l: Label)
    requires Enabled(s, l) && RingsOk(s)
    ensures AllHonest(EffectOf(s, l).events)
  {
    match l
    case Eng(e) => assert RingOk(s.at, s.log, TO_PKT);
    case Pkt(p) =>
      assert RingOk(s.at, s.log, TO_ENG);
      assert forall id :: id in s.reg.clients ==> RingOk(s.at, s.log, s.reg.clients[id].engineToClient);
      PktHonest(s, p);
    case Env(v) =>
      assert forall id :: id in s.reg.clients ==> RingOk(s.at, s.log, s.reg.clients[id].clientToEngine);
  }

  /** On every run each ring holds exactly the mbufs sent and not yet received, in
      order, never more than 511, and refuses an mbuf only when it is full. */
  lemma {:induction false} RunFifo(run: seq<Label>)
    requires Legal(Init(), run)
    ensures RingsOk(Exec(Init(), run))
  {
    if run == [] {
      assert forall ring :: Get(Init().at, InRing(ring)) == [];
    } else {
      var before := run[..|run| - 1];
      var s, l := Exec(Init(), before), run[|run| - 1];
      RunFifo(before);
      forall ring
        ensures RingOk(Next(s, l).at, Next(s, l).log, ring)
      {
        assert RingOk(s.at, s.log, ring);
        StepFifo(s, l, ring);
      }
      StepHonest(s, l);
    }
  }
}
