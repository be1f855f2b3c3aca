/** What never arrives: data inside the packetiser, and packets at the NIC. */
module Delivery {
  import opened Places
  import opened Registry
  import opened Dataplane
  import opened Machine
  import opened Fifo
  import Ownership
  import Roles

  // ----- A dequeue delivers the placeholder, not the data -----

  /** A ring some client other than the packetiser sends on. */
  ghost predicate ClientRing(p: Place) {
    p.InRing? && exists id: nat :: id != PACKETISER_ID && p.name == RingName(C2E, id)
  }

  /** The places an mbuf with data can be at: those on the way from the NIC to the
      packetiser's ring, and those on the way from a client to its ring. */
  ghost predicate Carrier(p: Place) {
    p in {Free, Nic, RxVec, ToPacketiser, SendPkt, InRing(TO_PKT), Lost} || p.ClientVec? || ClientRing(p)
  }

  predicate AllBlank(ms: seq<Mbuf>) {
    forall i :: 0 <= i < |ms| ==> ms[i].pkt.Blank?
  }

  ghost predicate DataStaysOut(at: Store) {
    forall p :: !Carrier(p) ==> AllBlank(Get(at, p))
  }

  /** The transfer brings no data to a place that has none. */
  ghost predicate BringsNoData(t: Transfer) {
    Carrier(t.to) || (!Carrier(t.from) && (t.Copy? || t.how.Keep?)) || (t.Move? && t.how.Clear?)
  }

  lemma ContainsOne(at: Store, t: Transfer)
    requires CanDo(at, t) && BringsNoData(t) && DataStaysOut(at)
    ensures DataStaysOut(Do(at, t))
  {
    forall p | !Carrier(p)
      ensures AllBlank(Get(Do(at, t), p))
    {
      assert AllBlank(Get(at, p));
      if p == t.to && t.Move? {
        var src := Get(at, t.from);
        var mid := src[t.first..t.first + t.count];
        assert !Carrier(t.from) ==> AllBlank(src);
        assert AllBlank(Refill(t.how, mid));
      } else if p == t.to {
        assert AllBlank(Get(at, t.from));
      }
    }
  }

  lemma {:induction false} ContainsAll(at: Store, ts: seq<Transfer>)
    requires CanDoAll(at, ts) && DataStaysOut(at)
    requires forall i :: 0 <= i < |ts| ==> BringsNoData(ts[i])
    ensures DataStaysOut(DoAll(at, ts))
    decreases |ts|
  {
    if ts != [] {
      ContainsOne(at, ts[0]);
      ContainsAll(Do(at, ts[0]), ts[1..]);
    }
  }

  ghost predicate Contained(ef: Effect) {
    forall i :: 0 <= i < |ef.transfers| ==> BringsNoData(ef.transfers[i])
  }

  lemma EngContained(s: State, e: EngStep)
    requires EngEnabled(s, e)
    ensures Contained(EngEffect(s, e))
  {}

  lemma PktContained(s: State, p: PktStep)
    requires PktEnabled(s, p)
    ensures Contained(PktEffect(s, p))
  {}

  lemma EnvContained(s: State, v: EnvStep)
    requires EnvEnabled(s, v) && Consistent(s.reg)
    ensures Contained(EnvEffect(s, v))
  {
    if v.ClientSend? {
      assert s.reg.clients[v.id] == ChannelOf(v.id);
      assert ClientRing(InRing(RingName(C2E, v.id)));
    }
  }

  lemma StepContained(s: State, l: Label)
    requires Enabled(s, l) && DataStaysOut(s.at) && Consistent(s.reg)
    ensures DataStaysOut(Next(s, l).at)
  {
    CanStep(s, l);
    assert Contained(EffectOf(s, l)) by {
      match l
      case Eng(e) => EngContained(s, e);
      case Pkt(p) => PktContained(s, p);
      case Env(v) => EnvContained(s, v);
    }
    ContainsAll(s.at, EffectOf(s, l).transfers);
  }

  /** On every run an mbuf with data, be it a frame from the NIC or what a client
      wrote, is on its way to a ring, free, lost, or held by the NIC or a client. */
  lemma {:induction false} DataNeverArrives(run: seq<Label>)
    requires Legal(Init(), run)
    ensures DataStaysOut(Exec(Init(), run).at)
  {
    if run == [] {
      assert forall p :: p != Free ==> Get(Init().at, p) == [];
    } else {
      var before := run[..|run| - 1];
      DataNeverArrives(before);
      Roles.InitRoles();
      Roles.RunKeepsRoles(Init(), before);
      StepContained(Exec(Init(), before), run[|run| - 1]);
    }
  }

  /** So the packetiser only ever handles its own empty placeholders: its queues,
      its ring to the engine and the rings to its clients hold nothing else. */
  lemma OnlyPlaceholders(run: seq<Label>, id: nat)
    requires Legal(Init(), run) && id != PACKETISER_ID
    ensures var at := Exec(Init(), run).at;
            && AllBlank(Get(at, InBuf)) && AllBlank(Get(at, OutBuf))
            && AllBlank(Get(at, InRing(TO_ENG))) && AllBlank(Get(at, InRing(RingName(E2C, id))))
  {
    DataNeverArrives(run);
    NotAClientRing(C2E, PACKETISER_ID);
    NotAClientRing(E2C, id);
    if RingName(E2C, id) == TO_PKT {
      NameInjective(E2C, id, E2C, PACKETISER_ID);
    }
    if TO_ENG == TO_PKT {
      NameInjective(C2E, PACKETISER_ID, E2C, PACKETISER_ID);
    }
  }

  lemma NotAClientRing(dir: Dir, id: nat)
    requires dir.E2C? || id == PACKETISER_ID
    ensures !ClientRing(InRing(RingName(dir, id)))
  {
    forall other: nat | other != PACKETISER_ID && RingName(dir, id) == RingName(C2E, other)
      ensures false
    {
      NameInjective(dir, id, C2E, other);
    }
  }

  // ----- Outbound: nobody fills FROM_PACKETISER -----

  /** The engine's outbound half is idle: its queues and vectors are empty. */
  predicate OutboundIdle(s: State) {
    && Get(s.at, FromPacketiser) == [] && Get(s.at, GetVec) == []
    && Get(s.at, OutPkts) == [] && Get(s.at, TxVec) == []
    && !s.eng.ETx? && (s.eng.EGetAlloc? ==> s.eng.len == 0)
  }

  predicate Outbound(p: Place) {
    p == FromPacketiser || p == GetVec || p == OutPkts || p == TxVec
  }

  /** A step that touches none of the outbound places. */
  predicate Inward(ef: Effect) {
    forall i :: 0 <= i < |ef.transfers| ==> !Outbound(ef.transfers[i].from) && !Outbound(ef.transfers[i].to)
  }

  lemma EngInward(s: State, e: EngStep)
    requires EngEnabled(s, e) && OutboundIdle(s)
    ensures Inward(EngEffect(s, e)) && !EngEffect(s, e).eng.ETx?
    ensures EngEffect(s, e).eng.EGetAlloc? ==> EngEffect(s, e).eng.len == 0
    ensures !e.TxSend? && !(e.GetReceive? && |EngEffect(s, e).events| > 0)
  {}

  lemma FwdInward(s: State, route: Option<nat>)
    requires s.pkt.PFwd?
    ensures Inward(FwdEffect(s, route)) && FwdEffect(s, route).eng == s.eng
  {}

  lemma RemoveInward(s: State, key: nat)
    ensures Inward(RemoveEffect(s, key)) && RemoveEffect(s, key).eng == s.eng
  {}

  lemma OutReceiveInward(s: State)
    requires PktEnabled(s, OutReceive)
    ensures Inward(OutReceiveEffect(s)) && OutReceiveEffect(s).eng == s.eng
  {}

  lemma PktInward(s: State, p: PktStep)
    requires PktEnabled(s, p)
    ensures Inward(PktEffect(s, p)) && PktEffect(s, p).eng == s.eng
  {
    match p
    case FwdNext(route) => FwdInward(s, route);
    case RemoveClient(key) => RemoveInward(s, key);
    case OutReceive => OutReceiveInward(s);
    case _ =>
  }

  lemma StepInward(s: State, l: Label)
    requires Enabled(s, l) && OutboundIdle(s)
    ensures Inward(EffectOf(s, l)) && !EffectOf(s, l).eng.ETx? && !(l.Eng? && l.e.TxSend?)
    ensures EffectOf(s, l).eng.EGetAlloc? ==> EffectOf(s, l).eng.len == 0
  {
    match l
    case Eng(e) => EngInward(s, e);
    case Pkt(p) => PktInward(s, p);
    case Env(v) =>
  }

  lemma InwardKeeps(at: Store, ef: Effect, p: Place)
    requires CanDoAll(at, ef.transfers) && Inward(ef) && Outbound(p)
    ensures Get(DoAll(at, ef.transfers), p) == Get(at, p)
  {
    Untouched(at, ef.transfers, p);
  }

  lemma StepIdle(s: State, l: Label)
    requires Enabled(s, l) && OutboundIdle(s)
    ensures OutboundIdle(Next(s, l))
    ensures !(l.Eng? && l.e.TxSend?)
  {
    CanStep(s, l);
    StepInward(s, l);
    InwardKeeps(s.at, EffectOf(s, l), FromPacketiser);
    InwardKeeps(s.at, EffectOf(s, l), GetVec);
    InwardKeeps(s.at, EffectOf(s, l), OutPkts);
    InwardKeeps(s.at, EffectOf(s, l), TxVec);
  }

  /** On every run the engine's outbound half stays idle, so no packet is ever
      handed to the NIC. */
  lemma {:induction false} RunIdle(run: seq<Label>)
    requires Legal(Init(), run)
    ensures OutboundIdle(Exec(Init(), run))
    ensures forall i :: 0 <= i < |run| ==> !(run[i].Eng? && run[i].e.TxSend?)
    ensures Ownership.AllOrNoneRun(Init(), run)
  {
    if run != [] {
      RunIdle(run[..|run| - 1]);
      StepIdle(Exec(Init(), run[..|run| - 1]), run[|run| - 1]);
      assert forall i :: 0 <= i < |run| - 1 ==> run[..|run| - 1][i] == run[i];
    }
  }

  /** The engine never takes anything off the packetiser's outgoing ring, nobody
      else may, and the ring is never freed. */
  predicate Undrained(es: seq<Event>) {
    forall i :: 0 <= i < |es| ==> (es[i].Dequeue? || es[i].RingFreed?) ==> es[i].ring != TO_ENG
  }

  lemma StepUndrained(s: State, l: Label)
    requires Enabled(s, l) && OutboundIdle(s) && Consistent(s.reg)
    ensures Undrained(EffectOf(s, l).events)
  {
    var es := EffectOf(s, l).events;
    Roles.StepInRole(s, l);
    forall i | 0 <= i < |es| && (es[i].Dequeue? || es[i].RingFreed?)
      ensures es[i].ring != TO_ENG
    {
      assert Roles.RoleKept(es[i]);
      var dir, id: nat :| Roles.InRole(es[i], dir, id);
      if es[i].ring == TO_ENG {
        NameInjective(dir, id, C2E, PACKETISER_ID);
        assert es[i].Dequeue? && es[i].who == Engine;
        EngineDequeues(s, l, i);
      }
    }
  }

  lemma EngineDequeues(s: State, l: Label, i: nat)
    requires Enabled(s, l) && i < |EffectOf(s, l).events|
    requires EffectOf(s, l).events[i].Dequeue? && EffectOf(s, l).events[i].who == Engine
    ensures l == Eng(GetReceive) && Get(s.at, GetVec) != []
  {
    if l.Pkt? {
      PktDequeues(s, l.p);
    }
  }

  lemma PktDequeues(s: State, p: PktStep)
    requires PktEnabled(s, p)
    ensures forall i :: 0 <= i < |PktEffect(s, p).events| && PktEffect(s, p).events[i].Dequeue? ==>
              PktEffect(s, p).events[i].who == Packetiser
  {}

  lemma {:induction false} RunUndrained(run: seq<Label>)
    requires Legal(Init(), run)
    ensures Undrained(Exec(Init(), run).log)
  {
    if run != [] {
      var before := run[..|run| - 1];
      RunUndrained(before);
      RunIdle(before);
      Roles.InitRoles();
      Roles.RunKeepsRoles(Init(), before);
      StepUndrained(Exec(Init(), before), run[|run| - 1]);
    }
  }

  lemma {:induction false} NothingReceived(log: seq<Event>)
    requires Undrained(log)
    ensures Received(log, TO_ENG) == []
  {
    if log != [] {
      NothingReceived(log[..|log| - 1]);
    }
  }

  /** On every run, however long: the packetiser gets at most 511 mbufs onto its
      ring to the engine in all, these very mbufs are still there, in order, and none
      has left through the NIC. */
  lemma OutboundIsStuck(run: seq<Label>)
    requires Legal(Init(), run)
    ensures var s := Exec(Init(), run);
            && Sent(s.log, TO_ENG) == Get(s.at, InRing(TO_ENG))
            && |Sent(s.log, TO_ENG)| <= RING_USABLE
            && OutboundIdle(s)
  {
    var s := Exec(Init(), run);
    RunIdle(run);
    RunUndrained(run);
    NothingReceived(s.log);
    RunFifo(run);
    assert RingOk(s.at, s.log, TO_ENG);
  }

  /** So from the initial state the partition and the ledger hold on every run,
      with no assumption about the NIC. */
  lemma {:induction false} EveryRunAccounted(run: seq<Label>)
    requires Legal(Init(), run)
    ensures Partition(Exec(Init(), run).at)
    ensures |Get(Exec(Init(), run).at, Lost)| == Ownership.Losses(Exec(Init(), run).log) <= NUM_MBUFS
  {
    RunIdle(run);
    Ownership.Lifetime(run);
  }
}
