/** From the NIC to the packetiser's ring: order and bounded loss. */
module Flow {
  import opened Places
  import opened Registry
  import opened Dataplane
  import opened Machine
  import opened Fifo
  import Roles

  /** The frames worth forwarding, in order. */
  function Accepted(ps: seq<Packet>): seq<Packet> {
    if ps == [] then []
    else Accepted(ps[..|ps| - 1]) + if Wanted(ps[|ps| - 1]) then [ps[|ps| - 1]] else []
  }

  /** What the engine tried to enqueue, in order, and what it got through. */
  function Tried(log: seq<Event>): seq<Packet> {
    if log == [] then []
    else
      var e := log[|log| - 1];
      Tried(log[..|log| - 1]) + if e.Enqueue? && e.who == Engine then [e.m.pkt] else []
  }

  function Through(log: seq<Event>): seq<Packet> {
    if log == [] then []
    else
      var e := log[|log| - 1];
      Through(log[..|log| - 1]) + if e.Enqueue? && e.who == Engine && e.ok then [e.m.pkt] else []
  }

  /** How many of the engine's enqueues failed, and how often `send_to_packetiser`
      was called. */
  function Refused(log: seq<Event>): nat {
    if log == [] then 0
    else
      var e := log[|log| - 1];
      Refused(log[..|log| - 1]) + if e.Enqueue? && e.who == Engine && !e.ok then 1 else 0
  }

  /** How many of them failed since the latest call began. */
  function RefusedThisCall(log: seq<Event>): nat {
    if log == [] || log[|log| - 1].SendBegun? then 0
    else
      var e := log[|log| - 1];
      RefusedThisCall(log[..|log| - 1]) + if e.Enqueue? && e.who == Engine && !e.ok then 1 else 0
  }

  /** At every point so far the call at hand has lost at most one packet. */
  predicate OneLossPerCall(log: seq<Event>) {
    log == [] || (OneLossPerCall(log[..|log| - 1]) && RefusedThisCall(log) <= 1)
  }

  function Calls(log: seq<Event>): nat {
    if log == [] then 0
    else Calls(log[..|log| - 1]) + if log[|log| - 1].SendBegun? then 1 else 0
  }

  predicate Subsequence<T(==)>(a: seq<T>, b: seq<T>) {
    a == [] ||
    (b != [] && (if a[|a| - 1] == b[|b| - 1] && Subsequence(a[..|a| - 1], b[..|b| - 1]) then true
                 else Subsequence(a, b[..|b| - 1])))
  }

  // ----- The invariant -----

  /** The local variables are empty outside their functions. */
  predicate InTurn(s: State) {
    && (!s.eng.ERx? ==> Get(s.at, RxVec) == [])
    && (!s.eng.ESend? ==> Get(s.at, SendPkt) == [])
    && |Get(s.at, SendPkt)| <= 1
  }

  /** Every wanted frame is, in order of arrival, already tried, held, queued or
      still in the burst. */
  predicate InOrder(s: State) {
    Chain(s.rx, Tried(s.log), Get(s.at, SendPkt), Get(s.at, ToPacketiser), Get(s.at, RxVec))
  }

  predicate Chain(rx: seq<Packet>, tried: seq<Packet>, held: seq<Mbuf>, queue: seq<Mbuf>, burst: seq<Mbuf>) {
    Accepted(rx) == tried + (Pkts(held) + (Pkts(queue) + Accepted(Pkts(burst))))
  }

  /** A refusal ends its call, so calls bound refusals. */
  predicate FewRefused(s: State) {
    Refused(s.log) + (if s.eng.ESend? then 1 else 0) <= Calls(s.log)
  }

  /** While the engine is still sending, the call at hand has lost nothing. */
  predicate OneLoss(s: State) {
    OneLossPerCall(s.log) && RefusedThisCall(s.log) + (if s.eng.ESend? then 1 else 0) <= 1
  }

  predicate FlowOk(s: State) {
    InTurn(s) && InOrder(s) && FewRefused(s) && OneLoss(s)
  }

  lemma {:induction false} AcceptedAppend(a: seq<Packet>, b: seq<Packet>)
    ensures Accepted(a + b) == Accepted(a) + Accepted(b)
  {
    if b == [] {
      assert a + b == a;
    } else {
      assert (a + b)[..|a + b| - 1] == a + b[..|b| - 1];
      AcceptedAppend(a, b[..|b| - 1]);
    }
  }

  lemma AcceptedOne(p: Packet)
    ensures Accepted([p]) == if Wanted(p) then [p] else []
  {
    assert Accepted([p][..0]) == [];
  }

  // ----- Which frames are worth forwarding -----

  /** `kept` are, in order, the packets of `all` with a non-zero ether type. */
  ghost predicate NonZeroOf(kept: seq<Packet>, all: seq<Packet>) {
    && Subsequence(kept, all)
    && forall p :: KeptAs(kept, all, p)
  }

  /** `p` was kept as often as it occurs, or not at all. */
  ghost predicate KeptAs(kept: seq<Packet>, all: seq<Packet>, p: Packet) {
    multiset(kept)[p] == if p.Frame? && p.etherType != 0 then multiset(all)[p] else 0
  }

  /** A frame is forwarded exactly if its ether type is not zero, as often as it came
      and in order. */
  lemma {:induction false} AcceptedIsNonZero(ps: seq<Packet>)
    ensures NonZeroOf(Accepted(ps), ps)
  {
    if ps != [] {
      var before, p := ps[..|ps| - 1], ps[|ps| - 1];
      AcceptedIsNonZero(before);
      assert ps == before + [p];
      if p.Frame? && p.etherType != 0 {
        SubsequenceBoth(Accepted(before), before, p);
      } else {
        SubsequenceSkip(Accepted(before), before, p);
        assert Accepted(ps) == Accepted(before);
      }
      forall x
        ensures KeptAs(Accepted(ps), ps, x)
      {
        assert KeptAs(Accepted(before), before, x);
      }
    }
  }

  predicate Foreign(e: Event) {
    !e.SendBegun? && !(e.Enqueue? && e.who == Engine)
  }

  /** What one more event adds to the counts. */
  lemma CountOne(log: seq<Event>, e: Event)
    ensures var tried, ok := e.Enqueue? && e.who == Engine, e.Enqueue? && e.ok;
            && Tried(log + [e]) == Tried(log) + (if tried then [e.m.pkt] else [])
            && Through(log + [e]) == Through(log) + (if tried && ok then [e.m.pkt] else [])
            && Refused(log + [e]) == Refused(log) + (if tried && !ok then 1 else 0)
            && Calls(log + [e]) == Calls(log) + (if e.SendBegun? then 1 else 0)
            && RefusedThisCall(log + [e])
               == (if e.SendBegun? then 0 else RefusedThisCall(log) + if tried && !ok then 1 else 0)
            && (OneLossPerCall(log + [e]) <==> OneLossPerCall(log) && RefusedThisCall(log + [e]) <= 1)
  {
    LogOne(log, e);
  }

  /** Events of the other parties do not count. */
  lemma {:induction false} ForeignLog(log: seq<Event>, es: seq<Event>)
    requires forall i :: 0 <= i < |es| ==> Foreign(es[i])
    ensures Tried(log + es) == Tried(log) && Through(log + es) == Through(log)
    ensures Refused(log + es) == Refused(log) && Calls(log + es) == Calls(log)
    ensures RefusedThisCall(log + es) == RefusedThisCall(log)
    ensures OneLossPerCall(log) && RefusedThisCall(log) <= 1 ==> OneLossPerCall(log + es)
  {
    if es == [] {
      assert log + es == log;
    } else {
      var last := |es| - 1;
      var before := log + es[..last];
      ForeignLog(log, es[..last]);
      assert log + es == before + [es[last]];
      assert Foreign(es[last]);
      CountOne(before, es[last]);
    }
  }

  /** A step that leaves the engine's receive path alone. */
  predicate Aside(ef: Effect) {
    && (forall i :: 0 <= i < |ef.transfers| ==>
          && !Touches(ef.transfers[i], RxVec) && !Touches(ef.transfers[i], SendPkt)
          && !Touches(ef.transfers[i], ToPacketiser))
    && (forall i :: 0 <= i < |ef.events| ==> Foreign(ef.events[i]))
  }

  predicate OnRxPath(pc: EngPc) {
    pc.ERx? || pc.ESend?
  }

  lemma AsideFlow(s: State, l: Label)
    requires Enabled(s, l) && Aside(EffectOf(s, l)) && FlowOk(s)
    requires EffectOf(s, l).rx == s.rx
    requires EffectOf(s, l).eng == s.eng || (!OnRxPath(s.eng) && !OnRxPath(EffectOf(s, l).eng))
    ensures FlowOk(Next(s, l))
  {
    CanStep(s, l);
    var ef := EffectOf(s, l);
    Untouched(s.at, ef.transfers, RxVec);
    Untouched(s.at, ef.transfers, SendPkt);
    Untouched(s.at, ef.transfers, ToPacketiser);
    ForeignLog(s.log, ef.events);
  }

  // ----- The chain, step by step -----

  lemma ChainBurst(rx: seq<Packet>, tried: seq<Packet>, held: seq<Mbuf>, queue: seq<Mbuf>, burst: seq<Mbuf>)
    requires Chain(rx, tried, held, queue, [])
    ensures Chain(rx + Pkts(burst), tried, held, queue, burst)
  {
    var b := Accepted(Pkts(burst));
    AcceptedAppend(rx, Pkts(burst));
    assert Pkts(queue) + Accepted(Pkts([])) == Pkts(queue);
    Reassociate(Pkts(held), Pkts(queue), b);
    Reassociate(tried, Pkts(held) + Pkts(queue), b);
  }

  lemma ChainSort(rx: seq<Packet>, tried: seq<Packet>, held: seq<Mbuf>, queue: seq<Mbuf>, burst: seq<Mbuf>)
    requires burst != [] && Chain(rx, tried, held, queue, burst)
    ensures Chain(rx, tried, held, if Wanted(burst[0].pkt) then queue + [burst[0]] else queue, burst[1..])
  {
    var p := burst[0].pkt;
    assert Pkts(burst) == [p] + Pkts(burst[1..]);
    AcceptedAppend([p], Pkts(burst[1..]));
    AcceptedOne(p);
    if Wanted(p) {
      assert Pkts(queue + [burst[0]]) == Pkts(queue) + [p];
      Reassociate(Pkts(queue), [p], Accepted(Pkts(burst[1..])));
    } else {
      assert [] + Accepted(Pkts(burst[1..])) == Accepted(Pkts(burst[1..]));
    }
  }

  lemma ChainPop(rx: seq<Packet>, tried: seq<Packet>, queue: seq<Mbuf>, burst: seq<Mbuf>)
    requires queue != [] && Chain(rx, tried, [], queue, burst)
    ensures Chain(rx, tried, [queue[0]], queue[1..], burst)
  {
    assert Pkts(queue) == Pkts([queue[0]]) + Pkts(queue[1..]);
    Reassociate(Pkts([queue[0]]), Pkts(queue[1..]), Accepted(Pkts(burst)));
    assert Pkts([]) + (Pkts(queue) + Accepted(Pkts(burst))) == Pkts(queue) + Accepted(Pkts(burst));
  }

  lemma ChainTry(rx: seq<Packet>, tried: seq<Packet>, m: Mbuf, queue: seq<Mbuf>, burst: seq<Mbuf>)
    requires Chain(rx, tried, [m], queue, burst)
    ensures Chain(rx, tried + [m.pkt], [], queue, burst)
  {
    var rest := Pkts(queue) + Accepted(Pkts(burst));
    assert Pkts([m]) == [m.pkt];
    Reassociate(tried, [m.pkt], rest);
    assert Pkts([]) + rest == rest;
  }

  lemma RxBurstFlow(s: State, first: nat, pkts: seq<Packet>)
    requires EngEnabled(s, RxBurst(first, pkts)) && FlowOk(s)
    ensures FlowOk(Next(s, Eng(RxBurst(first, pkts))))
  {
    var s' := Next(s, Eng(RxBurst(first, pkts)));
    BurstStep(s, first, pkts);
    assert s'.log == s.log;
    ChainBurst(s.rx, Tried(s.log), Get(s.at, SendPkt), Get(s.at, ToPacketiser), Get(s'.at, RxVec));
  }

  lemma RxNextFlow(s: State)
    requires EngEnabled(s, RxNext) && FlowOk(s)
    ensures FlowOk(Next(s, Eng(RxNext)))
  {
    var s' := Next(s, Eng(RxNext));
    assert s'.log == s.log;
    var burst := Get(s.at, RxVec);
    if burst != [] {
      PopPush(s.at, RxVec, if Wanted(burst[0].pkt) then ToPacketiser else Free);
      ChainSort(s.rx, Tried(s.log), Get(s.at, SendPkt), Get(s.at, ToPacketiser), burst);
    }
  }

  lemma SendCallFlow(s: State)
    requires EngEnabled(s, SendCall) && FlowOk(s)
    ensures FlowOk(Next(s, Eng(SendCall)))
  {
    CountOne(s.log, SendBegun);
  }

  lemma SendNextFlow(s: State)
    requires EngEnabled(s, SendNext) && FlowOk(s)
    ensures FlowOk(Next(s, Eng(SendNext)))
  {
    var s' := Next(s, Eng(SendNext));
    assert s'.log == s.log;
    var queue := Get(s.at, ToPacketiser);
    if queue != [] {
      PopPush(s.at, ToPacketiser, SendPkt);
      assert Get(s'.at, SendPkt) == [queue[0]] && Get(s'.at, ToPacketiser) == queue[1..];
      assert Get(s'.at, RxVec) == Get(s.at, RxVec);
      ChainPop(s.rx, Tried(s.log), Get(s.at, ToPacketiser), Get(s.at, RxVec));
    }
  }

  lemma SendEnqueueFlow(s: State)
    requires EngEnabled(s, SendEnqueue) && FlowOk(s)
    ensures FlowOk(Next(s, Eng(SendEnqueue)))
  {
    var s' := Next(s, Eng(SendEnqueue));
    var held := Get(s.at, SendPkt);
    var e := EnqueueEvent(s.at, Engine, SendPkt, TO_PKT);
    PopPushStep(s, Eng(SendEnqueue), SendPkt, EnqueueMove(s.at, SendPkt, TO_PKT).to);
    CountOne(s.log, e);
    assert held == [held[0]];
    assert s'.log == s.log + [e];
    ChainTry(s.rx, Tried(s.log), held[0], Get(s.at, ToPacketiser), Get(s.at, RxVec));
  }

  lemma EngAside(s: State, e: EngStep)
    requires EngEnabled(s, e)
    requires !e.RxBurst? && !e.RxNext? && !e.SendCall? && !e.SendNext? && !e.SendEnqueue?
    ensures Aside(EngEffect(s, e)) && EngEffect(s, e).rx == s.rx
    ensures !s.eng.ERx? && !s.eng.ESend? && !EngEffect(s, e).eng.ERx? && !EngEffect(s, e).eng.ESend?
  {}

  lemma FwdAside(s: State, route: Option<nat>)
    requires s.pkt.PFwd?
    ensures Aside(FwdEffect(s, route)) && FwdEffect(s, route).rx == s.rx && FwdEffect(s, route).eng == s.eng
  {}

  lemma RemoveAside(s: State, key: nat)
    ensures Aside(RemoveEffect(s, key)) && RemoveEffect(s, key).rx == s.rx && RemoveEffect(s, key).eng == s.eng
  {}

  lemma OutReceiveAside(s: State)
    requires PktEnabled(s, OutReceive)
    ensures Aside(OutReceiveEffect(s)) && OutReceiveEffect(s).rx == s.rx && OutReceiveEffect(s).eng == s.eng
  {}

  lemma OtherAside(s: State, p: PktStep)
    requires PktEnabled(s, p) && !p.FwdNext? && !p.RemoveClient? && !p.OutReceive?
    ensures Aside(PktEffect(s, p)) && PktEffect(s, p).rx == s.rx && PktEffect(s, p).eng == s.eng
  {}

  lemma PktAside(s: State, p: PktStep)
    requires PktEnabled(s, p)
    ensures Aside(PktEffect(s, p)) && PktEffect(s, p).rx == s.rx && PktEffect(s, p).eng == s.eng
  {
    match p
    case FwdNext(route) => FwdAside(s, route);
    case RemoveClient(key) => RemoveAside(s, key);
    case OutReceive => OutReceiveAside(s);
    case _ => OtherAside(s, p);
  }

  lemma EnvAside(s: State, v: EnvStep)
    requires EnvEnabled(s, v)
    ensures Aside(EnvEffect(s, v)) && EnvEffect(s, v).rx == s.rx && EnvEffect(s, v).eng == s.eng
  {}

  lemma EngFlow(s: State, e: EngStep)
    requires EngEnabled(s, e) && FlowOk(s)
    ensures FlowOk(Next(s, Eng(e)))
  {
    match e
    case RxBurst(first, pkts) => RxBurstFlow(s, first, pkts);
    case RxNext => RxNextFlow(s);
    case SendCall => SendCallFlow(s);
    case SendNext => SendNextFlow(s);
    case SendEnqueue => SendEnqueueFlow(s);
    case _ =>
      EngAside(s, e);
      AsideFlow(s, Eng(e));
  }

  lemma StepFlow(s: State, l: Label)
    requires Enabled(s, l) && FlowOk(s)
    ensures FlowOk(Next(s, l))
  {
    match l
    case Eng(e) => EngFlow(s, e);
    case Pkt(p) => PktAside(s, p); AsideFlow(s, l);
    case Env(v) => EnvAside(s, v); AsideFlow(s, l);
  }

  lemma {:induction false} RunFlow(s: State, run: seq<Label>)
    requires Legal(s, run) && FlowOk(s)
    ensures FlowOk(Exec(s, run))
  {
    if run != [] {
      RunFlow(s, run[..|run| - 1]);
      StepFlow(Exec(s, run[..|run| - 1]), run[|run| - 1]);
    }
  }

  // ----- What it means -----

  lemma {:induction false} ThroughIsPart(log: seq<Event>)
    ensures Subsequence(Through(log), Tried(log))
    ensures |Tried(log)| == |Through(log)| + Refused(log)
  {
    if log != [] {
      var before, e := log[..|log| - 1], log[|log| - 1];
      ThroughIsPart(before);
      assert log == before + [e];
      CountOne(before, e);
      if e.Enqueue? && e.who == Engine && e.ok {
        SubsequenceBoth(Through(before), Tried(before), e.m.pkt);
      } else if e.Enqueue? && e.who == Engine {
        SubsequenceSkip(Through(before), Tried(before), e.m.pkt);
        assert Through(before) + [] == Through(before);
      } else {
        assert Through(before) + [] == Through(before) && Tried(before) + [] == Tried(before);
      }
    }
  }

  lemma SubsequenceBoth<T>(a: seq<T>, b: seq<T>, x: T)
    requires Subsequence(a, b)
    ensures Subsequence(a + [x], b + [x])
  {
    assert (a + [x])[..|a + [x]| - 1] == a && (b + [x])[..|b + [x]| - 1] == b;
  }

  lemma SubsequenceSkip<T>(a: seq<T>, b: seq<T>, x: T)
    requires Subsequence(a, b)
    ensures Subsequence(a, b + [x])
  {
    assert (b + [x])[..|b|] == b;
  }

  lemma {:induction false} SubsequenceExtend<T>(a: seq<T>, b: seq<T>, c: seq<T>)
    requires Subsequence(a, b)
    ensures Subsequence(a, b + c)
  {
    if c == [] {
      assert b + c == b;
    } else {
      SubsequenceExtend(a, b, c[..|c| - 1]);
      SubsequenceSkip(a, b + c[..|c| - 1], c[|c| - 1]);
      assert (b + c[..|c| - 1]) + [c[|c| - 1]] == b + c;
    }
  }

  lemma PktsAppend(a: seq<Mbuf>, b: seq<Mbuf>)
    ensures Pkts(a + b) == Pkts(a) + Pkts(b)
  {}

  /** What the engine got through is what the ring to the packetiser was sent: on
      that ring nobody else enqueues, and it is never freed. */
  lemma {:induction false} ThroughIsSent(log: seq<Event>)
    requires Roles.AllInRole(log)
    ensures Through(log) == Pkts(Sent(log, TO_PKT))
  {
    if log != [] {
      var e := log[|log| - 1];
      ThroughIsSent(log[..|log| - 1]);
      assert Roles.RoleKept(e);
      var dir, id: nat :| Roles.InRole(e, dir, id);
      if (e.Enqueue? || e.RingFreed?) && e.ring == TO_PKT {
        NameInjective(dir, id, E2C, PACKETISER_ID);
      }
      if e.Enqueue? {
        PktsAppend(Sent(log[..|log| - 1], TO_PKT), [e.m]);
      }
    }
  }

  /** From the NIC to the ring: wanted are the frames with a non-zero ether type; those
      that got onto the ring are an in-order subsequence of the wanted ones; got through, refused,
      held, queued and still in the burst account for all of them, in this order;
      each call of `send_to_packetiser` loses at most one, and only on a full ring;
      and the ring passes them on in order. */
  ghost predicate NicToRingOk(s: State) {
    && InOrder(s)
    && NonZeroOf(Accepted(s.rx), s.rx)
    && Subsequence(Through(s.log), Accepted(s.rx))
    && |Tried(s.log)| == |Through(s.log)| + Refused(s.log)
    && Refused(s.log) <= Calls(s.log)
    && (forall n :: 0 <= n <= |s.log| ==> RefusedThisCall(s.log[..n]) <= 1)
    && (forall i :: 0 <= i < |s.log| && s.log[i].Enqueue? && !s.log[i].ok ==> s.log[i].used == RING_USABLE)
    && Through(s.log) == Pkts(Received(s.log, TO_PKT)) + Pkts(Get(s.at, InRing(TO_PKT)))
  }

  lemma {:induction false} EveryCall(log: seq<Event>)
    requires OneLossPerCall(log)
    ensures forall n :: 0 <= n <= |log| ==> RefusedThisCall(log[..n]) <= 1
  {
    if log != [] {
      var before := log[..|log| - 1];
      EveryCall(before);
      forall n | 0 <= n <= |log|
        ensures RefusedThisCall(log[..n]) <= 1
      {
        if n < |log| {
          assert before[..n] == log[..n];
        } else {
          assert log[..n] == log;
        }
      }
    }
  }

  /** The three invariants together say where every wanted frame is. */
  lemma {:induction false} WhereFramesAre(s: State)
    requires FlowOk(s) && RingsOk(s) && Roles.RolesKept(s)
    ensures NicToRingOk(s)
  {
    ThroughIsPart(s.log);
    ThroughIsSent(s.log);
    EveryCall(s.log);
    AcceptedIsNonZero(s.rx);
    var rest := Pkts(Get(s.at, SendPkt)) + (Pkts(Get(s.at, ToPacketiser)) + Accepted(Pkts(Get(s.at, RxVec))));
    SubsequenceExtend(Through(s.log), Tried(s.log), rest);
    assert RingOk(s.at, s.log, TO_PKT);
    PktsAppend(Received(s.log, TO_PKT), Get(s.at, InRing(TO_PKT)));
    forall i | 0 <= i < |s.log| && s.log[i].Enqueue? && !s.log[i].ok
      ensures s.log[i].used == RING_USABLE
    {
      assert Honest(s.log[i]);
    }
  }

  lemma {:induction false} NicToRing(run: seq<Label>)
    requires Legal(Init(), run)
    ensures NicToRingOk(Exec(Init(), run))
  {
    assert FlowOk(Init());
    RunFlow(Init(), run);
    RunFifo(run);
    Roles.InitRoles();
    Roles.RunKeepsRoles(Init(), run);
    WhereFramesAre(Exec(Init(), run));
  }
}
