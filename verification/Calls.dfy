/** The functions of the engine and the methods of the packetiser, each run
    without interruption. Every one of them is a run of the transition system. */
module Calls {
  import opened Places
  import opened Machine
  import opened Dataplane
  import opened Fifo
  import Flow

  lemma AllocStep(s: State, l: Label, to: Place)
    requires Enabled(s, l) && to != Free && Get(s.at, Free) != []
    requires EffectOf(s, l).transfers == [Move(Free, 0, 1, to, Clear)]
    ensures Get(Next(s, l).at, Free) == Get(s.at, Free)[1..]
    ensures Get(Next(s, l).at, to) == Get(s.at, to) + [Mbuf(Get(s.at, Free)[0].id, Blank)]
    ensures forall p :: p != Free && p != to ==> Get(Next(s, l).at, p) == Get(s.at, p)
  {
    var t := Move(Free, 0, 1, to, Clear);
    var free := Get(s.at, Free);
    DoOne(s.at, t);
    Moved(s.at, t);
    assert free[..0] + free[1..] == free[1..] && free[0..1] == [free[0]];
    assert Refill(Clear, [free[0]]) == [Mbuf(free[0].id, Blank)];
  }

  /** Allocating `n` placeholders from the front of the pool. */
  function Placeholders(free: seq<Mbuf>, n: nat): seq<Mbuf>
    requires n <= |free|
  {
    seq(n, i requires 0 <= i < n => Mbuf(free[i].id, Blank))
  }

  lemma OnePlaceholder(free: seq<Mbuf>, n: nat)
    requires n < |free|
    ensures Placeholders(free, n + 1) == Placeholders(free, n) + [Mbuf(free[n].id, Blank)]
    ensures free[n..][1..] == free[n + 1..]
  {}

  /** Only the places `ps` changed. */
  ghost predicate Same(at: Store, at': Store, ps: set<Place>) {
    forall p :: p !in ps ==> Get(at', p) == Get(at, p)
  }

  /** Step `i` of the run leads from state `i` to the next one. */
  predicate StepAt(trace: seq<State>, run: seq<Label>, i: int)
    requires |trace| == |run| + 1 && 0 <= i < |run|
  {
    Enabled(trace[i], run[i]) && trace[i + 1] == Next(trace[i], run[i])
  }

  /** The states a run goes through. */
  predicate Traced(trace: seq<State>, run: seq<Label>) {
    && |trace| == |run| + 1
    && forall i :: 0 <= i < |run| ==> StepAt(trace, run, i)
  }

  lemma ExtendTrace(trace: seq<State>, run: seq<Label>, l: Label)
    requires Traced(trace, run) && Enabled(trace[|run|], l)
    ensures Traced(trace + [Next(trace[|run|], l)], run + [l])
  {
    var trace', run' := trace + [Next(trace[|run|], l)], run + [l];
    forall i | 0 <= i < |run'|
      ensures StepAt(trace', run', i)
    {
      if i < |run| {
        assert StepAt(trace, run, i);
        assert trace'[i] == trace[i] && trace'[i + 1] == trace[i + 1] && run'[i] == run[i];
      }
    }
  }

  /** A trace is a run: every method below that continues its node's trace has
      taken only steps of the transition system. */
  lemma {:induction false} TracedIsRun(trace: seq<State>, run: seq<Label>)
    requires Traced(trace, run)
    ensures Legal(trace[0], run) && Exec(trace[0], run) == trace[|run|]
  {
    if run != [] {
      var n := |run| - 1;
      var before, steps := trace[..n + 1], run[..n];
      forall i | 0 <= i < n
        ensures StepAt(before, steps, i)
      {
        assert StepAt(trace, run, i);
      }
      assert StepAt(trace, run, n);
      TracedIsRun(trace[..n + 1], run[..n]);
    }
  }

  /** The mbufs of a burst that are wanted, or those that are not, in order. */
  function Chosen(ms: seq<Mbuf>, wanted: bool): seq<Mbuf> {
    if ms == [] then []
    else
      var m := ms[|ms| - 1];
      Chosen(ms[..|ms| - 1], wanted) + if Wanted(m.pkt) == wanted then [m] else []
  }

  /** Choosing mbufs chooses their packets. */
  lemma {:induction false} ChosenPkts(ms: seq<Mbuf>)
    ensures Pkts(Chosen(ms, true)) == Flow.Accepted(Pkts(ms))
  {
    if ms != [] {
      var before, m := ms[..|ms| - 1], ms[|ms| - 1];
      ChosenPkts(before);
      assert Pkts(ms)[..|ms| - 1] == Pkts(before) && Pkts(ms)[|ms| - 1] == m.pkt;
      assert Pkts(Chosen(before, true) + [m]) == Pkts(Chosen(before, true)) + [m.pkt];
      assert Chosen(before, true) + [] == Chosen(before, true);
    }
  }

  /** `chosen` are, in order, the mbufs of `all` whose frame has a non-zero ether type,
      or those whose content is anything else. */
  ghost predicate SortedBy(chosen: seq<Mbuf>, all: seq<Mbuf>, nonZero: bool) {
    && Flow.Subsequence(chosen, all)
    && forall m :: CountsAs(chosen, all, nonZero, m)
  }

  /** `m` was chosen as often as it occurs, or not at all. */
  ghost predicate CountsAs(chosen: seq<Mbuf>, all: seq<Mbuf>, nonZero: bool, m: Mbuf) {
    multiset(chosen)[m] == if (m.pkt.Frame? && m.pkt.etherType != 0) == nonZero then multiset(all)[m] else 0
  }

  lemma SortedKeep(chosen: seq<Mbuf>, all: seq<Mbuf>, m: Mbuf, nonZero: bool)
    requires SortedBy(chosen, all, nonZero) && (m.pkt.Frame? && m.pkt.etherType != 0) == nonZero
    ensures SortedBy(chosen + [m], all + [m], nonZero)
  {
    Flow.SubsequenceBoth(chosen, all, m);
    forall x
      ensures CountsAs(chosen + [m], all + [m], nonZero, x)
    {
      assert CountsAs(chosen, all, nonZero, x);
    }
  }

  lemma SortedSkip(chosen: seq<Mbuf>, all: seq<Mbuf>, m: Mbuf, nonZero: bool)
    requires SortedBy(chosen, all, nonZero) && (m.pkt.Frame? && m.pkt.etherType != 0) != nonZero
    ensures SortedBy(chosen, all + [m], nonZero)
  {
    Flow.SubsequenceSkip(chosen, all, m);
    forall x
      ensures CountsAs(chosen, all + [m], nonZero, x)
    {
      assert CountsAs(chosen, all, nonZero, x);
    }
  }

  lemma ChosenNext(before: seq<Mbuf>, m: Mbuf, nonZero: bool)
    ensures Chosen(before + [m], nonZero)
            == Chosen(before, nonZero) + if (m.pkt.Frame? && m.pkt.etherType != 0) == nonZero then [m] else []
  {
    assert (before + [m])[..|before|] == before;
  }

  lemma {:induction false} ChosenIsSorted(ms: seq<Mbuf>, nonZero: bool)
    ensures SortedBy(Chosen(ms, nonZero), ms, nonZero)
  {
    if ms != [] {
      var before, m := ms[..|ms| - 1], ms[|ms| - 1];
      assert ms == before + [m];
      ChosenIsSorted(before, nonZero);
      ChosenNext(before, m, nonZero);
      if (m.pkt.Frame? && m.pkt.etherType != 0) == nonZero {
        SortedKeep(Chosen(before, nonZero), before, m, nonZero);
      } else {
        SortedSkip(Chosen(before, nonZero), before, m, nonZero);
        assert Chosen(before, nonZero) + [] == Chosen(before, nonZero);
      }
    }
  }

  /** The mbufs of a burst of `pkts` that are queued and those that are freed are the
      ones with and without an ether type, and the queued ones hold these frames. */
  ghost predicate WellSorted(burst: seq<Mbuf>, pkts: seq<Packet>) {
    && SortedBy(Chosen(burst, true), burst, true) && SortedBy(Chosen(burst, false), burst, false)
    && Pkts(Chosen(burst, true)) == Flow.Accepted(pkts) && Flow.NonZeroOf(Flow.Accepted(pkts), pkts)
  }

  lemma BurstIsSorted(burst: seq<Mbuf>, pkts: seq<Packet>)
    requires Pkts(burst) == pkts
    ensures WellSorted(burst, pkts)
  {
    ChosenPkts(burst);
    ChosenIsSorted(burst, true);
    ChosenIsSorted(burst, false);
    Flow.AcceptedIsNonZero(pkts);
  }

  /** The first `i` mbufs of the burst are queued or freed. */
  ghost predicate SortedOut(was: Store, at: Store, burst: seq<Mbuf>, i: nat) {
    && i <= |burst| && Get(at, RxVec) == burst[i..]
    && Get(at, ToPacketiser) == Get(was, ToPacketiser) + Chosen(burst[..i], true)
    && Get(at, Free) == Get(was, Free) + Chosen(burst[..i], false)
    && Same(was, at, {RxVec, ToPacketiser, Free})
  }

  lemma SortedNext(was: Store, at: Store, at': Store, burst: seq<Mbuf>, i: nat)
    requires SortedOut(was, at, burst, i) && Get(at, RxVec) != []
    requires Get(at', RxVec) == Get(at, RxVec)[1..]
    requires var m := Get(at, RxVec)[0];
             var to := if Wanted(m.pkt) then ToPacketiser else Free;
             Get(at', to) == Get(at, to) + [m] && Same(at, at', {RxVec, to})
    ensures SortedOut(was, at', burst, i + 1)
  {
    assert burst[i..][1..] == burst[i + 1..] && burst[i..][0] == burst[i];
    assert burst[..i + 1][..i] == burst[..i];
  }

  /** `len` packets are on the ring and none is lost. */
  ghost predicate SentSoFar(was: Store, at: Store, len: nat) {
    var queue := Get(was, ToPacketiser);
    && len <= |queue| && len + Used(was, TO_PKT) <= RING_USABLE
    && Get(at, SendPkt) == [] && Get(at, Lost) == Get(was, Lost)
    && Get(at, InRing(TO_PKT)) == Get(was, InRing(TO_PKT)) + queue[..len]
    && Get(at, ToPacketiser) == queue[len..]
    && Same(was, at, {ToPacketiser, SendPkt, InRing(TO_PKT), Lost})
  }

  /** The ring was full: one packet more is gone, and lost. */
  ghost predicate OneLost(was: Store, at: Store, len: nat) {
    var queue := Get(was, ToPacketiser);
    && len < |queue| && len + Used(was, TO_PKT) == RING_USABLE
    && Get(at, SendPkt) == []
    && Get(at, InRing(TO_PKT)) == Get(was, InRing(TO_PKT)) + queue[..len]
    && Get(at, ToPacketiser) == queue[len + 1..] && Get(at, Lost) == Get(was, Lost) + queue[len..len + 1]
    && Same(was, at, {ToPacketiser, SendPkt, InRing(TO_PKT), Lost})
  }

  lemma SentNext(was: Store, at: Store, at': Store, len: nat, sent: bool)
    requires SentSoFar(was, at, len) && Get(at, ToPacketiser) != [] && sent == HasRoom(at, TO_PKT)
    requires Get(at', SendPkt) == [] && Get(at', ToPacketiser) == Get(at, ToPacketiser)[1..]
    requires var to := if sent then InRing(TO_PKT) else Lost;
             && Get(at', to) == Get(at, to) + [Get(at, ToPacketiser)[0]]
             && Same(at, at', {ToPacketiser, SendPkt, to})
    ensures if sent then SentSoFar(was, at', len + 1) else OneLost(was, at', len)
  {
    var queue := Get(was, ToPacketiser);
    assert queue[len..][1..] == queue[len + 1..] && queue[len..][0] == queue[len];
    assert queue[..len + 1] == queue[..len] + [queue[len]];
    assert queue[len..len + 1] == [queue[len]];
  }

  /** The mbufs the NIC has filled with a burst. */
  function Filled(at: Store, first: nat, pkts: seq<Packet>): seq<Mbuf>
    requires first + |pkts| <= |Get(at, Nic)|
  {
    Refill(Fill(pkts), Get(at, Nic)[first..first + |pkts|])
  }

  // The three phases of get_from_packetiser, as relations between stores.

  ghost predicate Allocated(at: Store, at': Store, n: nat) {
    && n == Smaller(|Get(at, FromPacketiser)|, |Get(at, Free)|)
    && Get(at', GetVec) == Placeholders(Get(at, Free), n)
    && Get(at', Free) == Get(at, Free)[n..]
    && Same(at, at', {Free, GetVec})
  }

  ghost predicate TakenOff(at: Store, at': Store, got: nat) {
    && got == Smaller(|Get(at, GetVec)|, Used(at, TO_ENG))
    && Get(at', GetVec) == Get(at, GetVec)[got..]
    && Get(at', OutPkts) == Get(at, OutPkts) + Get(at, GetVec)[..got]
    && Get(at', InRing(TO_ENG)) == Get(at, InRing(TO_ENG))[got..]
    && Get(at', Lost) == Get(at, Lost) + Get(at, InRing(TO_ENG))[..got]
    && Same(at, at', {GetVec, OutPkts, InRing(TO_ENG), Lost})
  }

  ghost predicate RestDropped(at: Store, at': Store) {
    && Get(at', GetVec) == []
    && Get(at', Free) == Get(at, Free) + Get(at, GetVec)
    && Same(at, at', {GetVec, Free})
  }

  /** What get_from_packetiser does: of the `len` packets FROM_PACKETISER announces
      it takes off the ring as many as there are placeholders and packets. The
      placeholders go out, the packets taken off are lost. */
  ghost predicate FetchedFrom(at: Store, at': Store, left: nat) {
    var len := |Get(at, FromPacketiser)|;
    var n := Smaller(len, |Get(at, Free)|);
    var got := Smaller(n, Used(at, TO_ENG));
    && left == len - got
    && Get(at', GetVec) == []
    && Get(at', OutPkts) == Get(at, OutPkts) + Placeholders(Get(at, Free), n)[..got]
    && Get(at', InRing(TO_ENG)) == Get(at, InRing(TO_ENG))[got..]
    && Get(at', Lost) == Get(at, Lost) + Get(at, InRing(TO_ENG))[..got]
    && Get(at', Free) == Get(at, Free)[n..] + Placeholders(Get(at, Free), n)[got..]
    && Same(at, at', {Free, GetVec, OutPkts, InRing(TO_ENG), Lost})
  }

  lemma PhasesFetch(at0: Store, at1: Store, at2: Store, at3: Store, n: nat, got: nat)
    requires Allocated(at0, at1, n) && TakenOff(at1, at2, got) && RestDropped(at2, at3)
    ensures got <= |Get(at0, FromPacketiser)| && FetchedFrom(at0, at3, |Get(at0, FromPacketiser)| - got)
  {}

  /** Both processes' view of the shared state, and the run that led to it. */
  class Node {
    var s: State
    ghost const start: State
    ghost var trace: seq<State>
    ghost var run: seq<Label>

    ghost predicate Valid()
      reads this
    {
      Traced(trace, run) && trace[0] == start && s == trace[|run|]
    }

    constructor (initial: State)
      ensures Valid() && s == initial == start && run == []
    {
      s, start := initial, initial;
      trace := [initial];
      run := [];
    }

    /** Take one step. */
    method Do(l: Label)
      requires Valid() && Enabled(s, l)
      modifies this
      ensures Valid() && Continues(old(run)) && s == Next(old(s), l)
    {
      ExtendTrace(trace, run, l);
      s := Next(s, l);
      run := run + [l];
      trace := trace + [s];
    }

    /** The run goes on from where it was. */
    ghost predicate Continues(before: seq<Label>)
      reads this
    {
      before <= run
    }

    /** Take a step that pops one place and pushes another. */
    method PopPushDo(l: Label, ghost from: Place, ghost to: Place)
      requires Valid() && Enabled(s, l) && from != to && Get(s.at, from) != []
      requires EffectOf(s, l).transfers == [Move(from, 0, 1, to, Keep)]
      modifies this
      ensures Valid() && Continues(old(run))
      ensures s.eng == old(EffectOf(s, l).eng) && s.pkt == old(EffectOf(s, l).pkt) && s.reg == old(EffectOf(s, l).reg)
      ensures Get(s.at, from) == old(Get(s.at, from))[1..]
      ensures Get(s.at, to) == old(Get(s.at, to)) + [old(Get(s.at, from))[0]]
      ensures Same(old(s.at), s.at, {from, to})
    {
      PopPushStep(s, l, from, to);
      Do(l);
    }

    /** Take a step that allocates the front mbuf of the pool. */
    method AllocDo(l: Label, ghost to: Place)
      requires Valid() && Enabled(s, l) && to != Free && Get(s.at, Free) != []
      requires EffectOf(s, l).transfers == [Move(Free, 0, 1, to, Clear)]
      modifies this
      ensures Valid() && Continues(old(run))
      ensures s.eng == old(EffectOf(s, l).eng) && s.pkt == old(EffectOf(s, l).pkt) && s.reg == old(EffectOf(s, l).reg)
      ensures Get(s.at, Free) == old(Get(s.at, Free))[1..]
      ensures Get(s.at, to) == old(Get(s.at, to)) + [Mbuf(old(Get(s.at, Free))[0].id, Blank)]
      ensures Same(old(s.at), s.at, {Free, to})
    {
      AllocStep(s, l, to);
      Do(l);
    }

    // ----- get_external_pkts -----

    method Receive(first: nat, pkts: seq<Packet>)
      requires Valid() && EngEnabled(s, RxBurst(first, pkts)) && Get(s.at, RxVec) == []
      modifies this
      ensures Valid() && Continues(old(run)) && s.eng.ERx?
      ensures Get(s.at, RxVec) == Filled(old(s.at), first, pkts) && Pkts(Get(s.at, RxVec)) == pkts
      ensures Get(s.at, Nic) == old(Get(s.at, Nic))[..first] + old(Get(s.at, Nic))[first + |pkts|..]
      ensures Same(old(s.at), s.at, {Nic, RxVec})
    {
      BurstStep(s, first, pkts);
      Do(Eng(RxBurst(first, pkts)));
    }

    /** Queue or free the next packet of the burst. */
    method SortOne()
      requires Valid() && s.eng.ERx? && Get(s.at, RxVec) != []
      modifies this
      ensures Valid() && Continues(old(run)) && s.eng.ERx?
      ensures Get(s.at, RxVec) == old(Get(s.at, RxVec))[1..]
      ensures var m := old(Get(s.at, RxVec))[0];
              var to := if Wanted(m.pkt) then ToPacketiser else Free;
              Get(s.at, to) == old(Get(s.at, to)) + [m] && Same(old(s.at), s.at, {RxVec, to})
    {
      PopPushDo(Eng(RxNext), RxVec, if Wanted(Get(s.at, RxVec)[0].pkt) then ToPacketiser else Free);
    }

    method EndBurst()
      requires Valid() && s.eng.ERx? && Get(s.at, RxVec) == []
      modifies this
      ensures Valid() && Continues(old(run)) && s.eng.EIdle? && s.at == old(s.at)
    {
      Do(Eng(RxNext));
    }

    /** The loop over the burst. */
    method SortBurst()
      requires Valid() && s.eng.ERx?
      modifies this
      ensures Valid() && Continues(old(run)) && s.eng.ERx? && Get(s.at, RxVec) == []
      ensures var burst := old(Get(s.at, RxVec));
              && Get(s.at, ToPacketiser) == old(Get(s.at, ToPacketiser)) + Chosen(burst, true)
              && Get(s.at, Free) == old(Get(s.at, Free)) + Chosen(burst, false)
              && Same(old(s.at), s.at, {RxVec, ToPacketiser, Free})
    {
      ghost var was, burst := s.at, Get(s.at, RxVec);
      ghost var i := 0;
      while Get(s.at, RxVec) != []
        invariant Valid() && Continues(old(run)) && s.eng.ERx? && SortedOut(was, s.at, burst, i)
        decreases |Get(s.at, RxVec)|
      {
        ghost var at := s.at;
        SortOne();
        SortedNext(was, at, s.at, burst, i);
        i := i + 1;
      }
      assert burst[..i] == burst;
    }

    /** `get_external_pkts`: of a burst `pkts` in the NIC's mbufs from `first` on, the
        wanted mbufs are queued in order and the others freed. */
    method GetExternalPkts(first: nat, pkts: seq<Packet>) returns (len: nat)
      requires Valid() && EngEnabled(s, RxBurst(first, pkts)) && Get(s.at, RxVec) == []
      modifies this
      ensures Valid() && Continues(old(run)) && s.eng.EIdle?
      ensures len == |pkts| && Get(s.at, RxVec) == []
      ensures var burst := Filled(old(s.at), first, pkts);
              && Get(s.at, ToPacketiser) == old(Get(s.at, ToPacketiser)) + Chosen(burst, true)
              && Get(s.at, Free) == old(Get(s.at, Free)) + Chosen(burst, false)
              && WellSorted(burst, pkts)
      ensures Get(s.at, Nic) == old(Get(s.at, Nic))[..first] + old(Get(s.at, Nic))[first + |pkts|..]
      ensures Same(old(s.at), s.at, {Nic, RxVec, ToPacketiser, Free})
    {
      Receive(first, pkts);
      SortBurst();
      EndBurst();
      len := |pkts|;
      BurstIsSorted(Filled(old(s.at), first, pkts), pkts);
    }

    // ----- send_to_packetiser -----

    method BeginSend()
      requires Valid() && s.eng.EIdle?
      modifies this
      ensures Valid() && Continues(old(run)) && s.at == old(s.at)
      ensures s.eng == if Get(s.at, ToPacketiser) == [] then EIdle else ESend
    {
      Do(Eng(SendCall));
    }

    method EndSend()
      requires Valid() && s.eng.ESend? && Get(s.at, SendPkt) == [] && Get(s.at, ToPacketiser) == []
      modifies this
      ensures Valid() && Continues(old(run)) && s.at == old(s.at) && s.eng.EIdle?
    {
      Do(Eng(SendNext));
    }

    method PopOne()
      requires Valid() && s.eng.ESend? && Get(s.at, SendPkt) == [] && Get(s.at, ToPacketiser) != []
      modifies this
      ensures Valid() && Continues(old(run)) && s.eng.ESend?
      ensures Get(s.at, SendPkt) == [old(Get(s.at, ToPacketiser))[0]]
      ensures Get(s.at, ToPacketiser) == old(Get(s.at, ToPacketiser))[1..]
      ensures Same(old(s.at), s.at, {ToPacketiser, SendPkt})
    {
      PopPushDo(Eng(SendNext), ToPacketiser, SendPkt);
    }

    method EnqueueOne() returns (sent: bool)
      requires Valid() && s.eng.ESend? && |Get(s.at, SendPkt)| == 1
      modifies this
      ensures Valid() && Continues(old(run)) && Get(s.at, SendPkt) == []
      ensures sent == old(HasRoom(s.at, TO_PKT)) && s.eng == if sent then ESend else EIdle
      ensures var to := if sent then InRing(TO_PKT) else Lost;
              Get(s.at, to) == old(Get(s.at, to)) + old(Get(s.at, SendPkt)) && Same(old(s.at), s.at, {SendPkt, to})
    {
      sent := HasRoom(s.at, TO_PKT);
      assert Get(s.at, SendPkt) == [Get(s.at, SendPkt)[0]];
      PopPushDo(Eng(SendEnqueue), SendPkt, if sent then InRing(TO_PKT) else Lost);
    }

    /** Pop one packet and try to enqueue it. */
    method SendOne() returns (sent: bool)
      requires Valid() && s.eng.ESend? && Get(s.at, SendPkt) == [] && Get(s.at, ToPacketiser) != []
      modifies this
      ensures Valid() && Continues(old(run)) && Get(s.at, SendPkt) == []
      ensures sent == old(HasRoom(s.at, TO_PKT)) && s.eng == if sent then ESend else EIdle
      ensures Get(s.at, ToPacketiser) == old(Get(s.at, ToPacketiser))[1..]
      ensures var to := if sent then InRing(TO_PKT) else Lost;
              Get(s.at, to) == old(Get(s.at, to)) + [old(Get(s.at, ToPacketiser))[0]]
              && Same(old(s.at), s.at, {ToPacketiser, SendPkt, to})
    {
      PopOne();
      sent := EnqueueOne();
    }

    /** `send_to_packetiser`: as many queued packets as the ring has room for go
        onto the ring in order; if there are more, the next one is lost. */
    method SendToPacketiser() returns (len: nat)
      requires Valid() && s.eng.EIdle? && Get(s.at, SendPkt) == [] && Used(s.at, TO_PKT) <= RING_USABLE
      modifies this
      ensures Valid() && Continues(old(run)) && s.eng.EIdle? && Get(s.at, SendPkt) == []
      ensures len == Smaller(|old(Get(s.at, ToPacketiser))|, RING_USABLE - old(Used(s.at, TO_PKT)))
      ensures Get(s.at, InRing(TO_PKT)) == old(Get(s.at, InRing(TO_PKT))) + old(Get(s.at, ToPacketiser))[..len]
      ensures var queue := old(Get(s.at, ToPacketiser));
              var lose := if len < |queue| then 1 else 0;
              && Get(s.at, ToPacketiser) == queue[len + lose..]
              && Get(s.at, Lost) == old(Get(s.at, Lost)) + queue[len..len + lose]
      ensures Same(old(s.at), s.at, {ToPacketiser, SendPkt, InRing(TO_PKT), Lost})
    {
      ghost var was := s.at;
      len := 0;
      BeginSend();
      while s.eng.ESend? && Get(s.at, ToPacketiser) != []
        invariant Valid() && Continues(old(run)) && SentSoFar(was, s.at, len)
        invariant s.eng == if Get(was, ToPacketiser) == [] then EIdle else ESend
        decreases |Get(was, ToPacketiser)| - len
      {
        ghost var at := s.at;
        var sent := SendOne();
        SentNext(was, at, s.at, len, sent);
        if !sent {
          return;
        }
        len := len + 1;
      }
      if s.eng.ESend? {
        EndSend();
      }
    }

    // ----- get_from_packetiser -----

    method AllocateOne()
      requires Valid() && s.eng.EGetAlloc? && s.eng.done < s.eng.len && Get(s.at, Free) != []
      modifies this
      ensures Valid() && Continues(old(run)) && s.eng == EGetAlloc(old(s.eng.len), old(s.eng.done) + 1)
      ensures Get(s.at, Free) == old(Get(s.at, Free))[1..]
      ensures Get(s.at, GetVec) == old(Get(s.at, GetVec)) + [Mbuf(old(Get(s.at, Free))[0].id, Blank)]
      ensures Same(old(s.at), s.at, {Free, GetVec})
    {
      AllocDo(Eng(GetAlloc(0)), GetVec);
    }

    /** Allocate up to one placeholder for each packet believed to wait. */
    method AllocateForGet() returns (ghost n: nat)
      requires Valid() && s.eng.EIdle? && Get(s.at, GetVec) == []
      modifies this
      ensures Valid() && Continues(old(run)) && s.eng.EGetRecv?
      ensures Allocated(old(s.at), s.at, n)
    {
      ghost var was := s.at;
      ghost var free := Get(s.at, Free);
      Do(Eng(GetCall));
      n := 0;
      while s.eng.EGetAlloc? && s.eng.done < s.eng.len && Get(s.at, Free) != []
        invariant Valid() && Continues(old(run))
        invariant s.eng == EGetAlloc(|Get(was, FromPacketiser)|, n) && n <= |Get(was, FromPacketiser)| && n <= |free|
        invariant Get(s.at, GetVec) == Placeholders(free, n) && Get(s.at, Free) == free[n..]
        invariant Same(was, s.at, {Free, GetVec})
        decreases |free| - n
      {
        OnePlaceholder(free, n);
        AllocateOne();
        n := n + 1;
      }
      Do(Eng(GetAlloc(0)));
    }

    /** Receive into the front placeholder: the ring loses a packet, the placeholder
        goes out. */
    method GetOne()
      requires Valid() && s.eng.EGetRecv? && Get(s.at, GetVec) != [] && Used(s.at, TO_ENG) > 0
      modifies this
      ensures Valid() && Continues(old(run)) && s.eng.EGetRecv?
      ensures Get(s.at, GetVec) == old(Get(s.at, GetVec))[1..]
      ensures Get(s.at, OutPkts) == old(Get(s.at, OutPkts)) + [old(Get(s.at, GetVec))[0]]
      ensures Get(s.at, InRing(TO_ENG)) == old(Get(s.at, InRing(TO_ENG)))[1..]
      ensures Get(s.at, Lost) == old(Get(s.at, Lost)) + [old(Get(s.at, InRing(TO_ENG)))[0]]
      ensures Same(old(s.at), s.at, {GetVec, OutPkts, InRing(TO_ENG), Lost})
    {
      TwoPops(s.at, InRing(TO_ENG), Lost, GetVec, OutPkts);
      Do(Eng(GetReceive));
    }

    method DropOne()
      requires Valid() && s.eng.EGetDrop? && Get(s.at, GetVec) != []
      modifies this
      ensures Valid() && Continues(old(run)) && s.eng.EGetDrop?
      ensures Get(s.at, GetVec) == old(Get(s.at, GetVec))[1..]
      ensures Get(s.at, Free) == old(Get(s.at, Free)) + [old(Get(s.at, GetVec))[0]]
      ensures Same(old(s.at), s.at, {GetVec, Free})
    {
      PopPushDo(Eng(GetDrop), GetVec, Free);
    }

    /** Free the placeholders that were not used. */
    method DropRest()
      requires Valid() && s.eng.EGetDrop?
      modifies this
      ensures Valid() && Continues(old(run)) && s.eng.EIdle?
      ensures RestDropped(old(s.at), s.at)
    {
      ghost var was := s.at;
      ghost var rest := Get(s.at, GetVec);
      ghost var i := 0;
      while Get(s.at, GetVec) != []
        invariant Valid() && Continues(old(run)) && s.eng.EGetDrop? && i <= |rest|
        invariant Get(s.at, GetVec) == rest[i..] && Get(s.at, Free) == Get(was, Free) + rest[..i]
        invariant Same(was, s.at, {GetVec, Free})
        decreases |Get(s.at, GetVec)|
      {
        DropOne();
        assert rest[i..][1..] == rest[i + 1..] && rest[..i + 1] == rest[..i] + [rest[i..][0]];
        i := i + 1;
      }
      assert rest[..i] == rest;
      Do(Eng(GetDrop));
    }

    /** Receive while placeholders and packets last. */
    method GetAll() returns (got: nat)
      requires Valid() && s.eng.EGetRecv?
      modifies this
      ensures Valid() && Continues(old(run)) && s.eng.EGetRecv?
      ensures TakenOff(old(s.at), s.at, got)
    {
      ghost var was := s.at;
      ghost var ps, ring := Get(s.at, GetVec), Get(s.at, InRing(TO_ENG));
      got := 0;
      while Get(s.at, GetVec) != [] && Used(s.at, TO_ENG) > 0
        invariant Valid() && Continues(old(run)) && s.eng.EGetRecv? && got <= |ps| && got <= |ring|
        invariant Get(s.at, GetVec) == ps[got..] && Get(s.at, InRing(TO_ENG)) == ring[got..]
        invariant Get(s.at, OutPkts) == Get(was, OutPkts) + ps[..got]
        invariant Get(s.at, Lost) == Get(was, Lost) + ring[..got]
        invariant Same(was, s.at, {GetVec, OutPkts, InRing(TO_ENG), Lost})
        decreases |ps| - got
      {
        GetOne();
        assert ps[got..][1..] == ps[got + 1..] && ps[..got + 1] == ps[..got] + [ps[got..][0]];
        assert ring[got..][1..] == ring[got + 1..] && ring[..got + 1] == ring[..got] + [ring[got..][0]];
        got := got + 1;
      }
    }

    /** `get_from_packetiser`. */
    method GetFromPacketiser() returns (left: nat)
      requires Valid() && s.eng.EIdle? && Get(s.at, GetVec) == []
      modifies this
      ensures Valid() && Continues(old(run)) && s.eng.EIdle?
      ensures FetchedFrom(old(s.at), s.at, left)
    {
      var len := |Get(s.at, FromPacketiser)|;
      ghost var n := AllocateForGet();
      ghost var at1 := s.at;
      var got := GetAll();
      ghost var at2 := s.at;
      EndReceive();
      if s.eng.EGetDrop? {
        DropRest();
      }
      PhasesFetch(old(s.at), at1, at2, s.at, n, got);
      left := len - got;
    }

    method EndReceive()
      requires Valid() && s.eng.EGetRecv? && (Get(s.at, GetVec) == [] || Used(s.at, TO_ENG) == 0)
      modifies this
      ensures Valid() && Continues(old(run)) && s.at == old(s.at)
      ensures s.eng == if Get(s.at, GetVec) == [] then EIdle else EGetDrop
    {
      Do(Eng(GetReceive));
    }

    // ----- send_pkts_out -----

    method TakeOut()
      requires Valid() && s.eng.ETx?
      modifies this
      ensures Valid() && Continues(old(run)) && s.eng.ETx? && Get(s.at, OutPkts) == []
      ensures Get(s.at, TxVec) == old(Get(s.at, TxVec)) + old(Get(s.at, OutPkts))
      ensures Same(old(s.at), s.at, {OutPkts, TxVec})
    {
      ghost var was := s.at;
      ghost var queue := Get(s.at, OutPkts);
      ghost var i := 0;
      while Get(s.at, OutPkts) != []
        invariant Valid() && Continues(old(run)) && s.eng.ETx? && i <= |queue|
        invariant Get(s.at, OutPkts) == queue[i..] && Get(s.at, TxVec) == Get(was, TxVec) + queue[..i]
        invariant Same(was, s.at, {OutPkts, TxVec})
        decreases |Get(s.at, OutPkts)|
      {
        PopPushDo(Eng(TxPop), OutPkts, TxVec);
        assert queue[i..][1..] == queue[i + 1..] && queue[..i + 1] == queue[..i] + [queue[i..][0]];
        i := i + 1;
      }
      assert queue[..i] == queue;
    }

    /** `send_pkts_out`, the NIC accepting `accepted` packets: unless that is all of
        them, all of them are freed as well. */
    method SendPktsOut(accepted: nat) returns (sent: nat)
      requires Valid() && s.eng.EIdle? && Get(s.at, TxVec) == [] && accepted <= |Get(s.at, OutPkts)| < U16_RANGE
      modifies this
      ensures Valid() && Continues(old(run)) && s.eng.EIdle? && sent == accepted
      ensures Get(s.at, OutPkts) == [] && Get(s.at, TxVec) == []
      ensures Get(s.at, Nic) == old(Get(s.at, Nic)) + old(Get(s.at, OutPkts))[..accepted]
      ensures Get(s.at, Free) == old(Get(s.at, Free)) +
                                 if sent < |old(Get(s.at, OutPkts))| then old(Get(s.at, OutPkts)) else []
      ensures Same(old(s.at), s.at, {OutPkts, TxVec, Nic, Free})
    {
      ghost var queue := Get(s.at, OutPkts);
      var any := Get(s.at, OutPkts) != [];
      Do(Eng(TxCall));
      if any {
        TakeOut();
        SendStep(s, accepted);
        Do(Eng(TxSend(accepted)));
      }
      assert queue[..|queue|] == queue;
      sent := accepted;
    }
  }

  lemma TwoPops(at: Store, from: Place, to: Place, from2: Place, to2: Place)
    requires from != to && from2 != to2 && from != from2 && from != to2 && to != from2 && to != to2
    requires Get(at, from) != [] && Get(at, from2) != []
    ensures var ts := [Move(from, 0, 1, to, Keep), Move(from2, 0, 1, to2, Keep)];
            && CanDoAll(at, ts)
            && Get(DoAll(at, ts), from) == Get(at, from)[1..]
            && Get(DoAll(at, ts), to) == Get(at, to) + [Get(at, from)[0]]
            && Get(DoAll(at, ts), from2) == Get(at, from2)[1..]
            && Get(DoAll(at, ts), to2) == Get(at, to2) + [Get(at, from2)[0]]
            && forall p :: p !in {from, to, from2, to2} ==> Get(DoAll(at, ts), p) == Get(at, p)
  {
    var t, u := Move(from, 0, 1, to, Keep), Move(from2, 0, 1, to2, Keep);
    PopPush(at, from, to);
    DoOne(at, t);
    PopPush(Do(at, t), from2, to2);
    DoOne(Do(at, t), u);
    DoTwo(at, t, u);
  }

  /** The NIC took less than everything: it has what it took, and all is freed. */
  lemma PartialSend(at: Store, accepted: nat)
    requires accepted < |Get(at, TxVec)|
    ensures var vec := Get(at, TxVec);
            var ts := TxTransfers(|vec|, accepted);
            && CanDoAll(at, ts) && Get(DoAll(at, ts), TxVec) == []
            && Get(DoAll(at, ts), Nic) == Get(at, Nic) + vec[..accepted]
            && Get(DoAll(at, ts), Free) == Get(at, Free) + vec
            && Same(at, DoAll(at, ts), {TxVec, Nic, Free})
  {
    var vec := Get(at, TxVec);
    var ts := TxTransfers(|vec|, accepted);
    var mid := Do(at, ts[0]);
    DoTwo(at, ts[0], ts[1]);
    Moved(mid, ts[1]);
    assert vec[0..|vec|] == vec && vec[..0] + vec[|vec|..] == [];
  }

  lemma FullSend(at: Store, n: nat)
    requires n == |Get(at, TxVec)|
    ensures var vec := Get(at, TxVec);
            var ts := TxTransfers(n, n);
            && CanDoAll(at, ts) && Get(DoAll(at, ts), TxVec) == []
            && Get(DoAll(at, ts), Nic) == Get(at, Nic) + vec
            && Same(at, DoAll(at, ts), {TxVec, Nic})
  {
    var vec := Get(at, TxVec);
    var ts := TxTransfers(n, n);
    DoOne(at, ts[0]);
    Moved(at, ts[0]);
    assert vec[0..n] == vec && vec[..0] + vec[n..] == [];
  }

  lemma SendStep(s: State, accepted: nat)
    requires EngEnabled(s, TxSend(accepted)) && accepted <= |Get(s.at, TxVec)|
    ensures var s' := Next(s, Eng(TxSend(accepted)));
            var vec := Get(s.at, TxVec);
            && Get(s'.at, TxVec) == [] && Get(s'.at, OutPkts) == []
            && Get(s'.at, Nic) == Get(s.at, Nic) + vec[..accepted]
            && Get(s'.at, Free) == Get(s.at, Free) + (if accepted < |vec| then vec else [])
            && Same(s.at, s'.at, {TxVec, Nic, Free})
  {
    var vec := Get(s.at, TxVec);
    if accepted < |vec| {
      PartialSend(s.at, accepted);
    } else {
      FullSend(s.at, accepted);
      assert vec[..accepted] == vec;
    }
  }
}
