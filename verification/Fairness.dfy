/** Round-robin fairness on every run: other processes may step, and clients may
    send, at any point of `store_outgoing`. */
module Fairness {
  import opened Registry
  import opened Dataplane
  import Fifo
  import Roles
  import RoundRobin
  import FairCalls

  // ----- What the current call has done so far -----

  /** How many packets the latest call of `store_outgoing` has taken from client
      `id`. */
  function Took(log: seq<Event>, id: nat): nat {
    if log == [] || log[|log| - 1].CollectBegun? then 0
    else Took(log[..|log| - 1], id) + if IsTake(log[|log| - 1], id) then 1 else 0
  }

  /** How often it has found that client's ring empty, or no ring. */
  function Missed(log: seq<Event>, id: nat): nat {
    if log == [] || log[|log| - 1].CollectBegun? then 0
    else Missed(log[..|log| - 1], id) + if log[|log| - 1] == FoundEmpty(id) then 1 else 0
  }

  predicate IsTake(e: Event, id: nat) {
    e.Dequeue? && e.who == Packetiser && e.ring == RingName(C2E, id)
  }

  /** An event that is neither a take, nor a miss, nor the beginning of a call. */
  predicate Aloof(e: Event) {
    !e.CollectBegun? && !e.FoundEmpty? && (e.Dequeue? ==> e.who != Packetiser)
  }

  lemma CountOne(log: seq<Event>, e: Event, id: nat)
    ensures !e.CollectBegun? ==>
              && Took(log + [e], id) == Took(log, id) + (if IsTake(e, id) then 1 else 0)
              && Missed(log + [e], id) == Missed(log, id) + (if e == FoundEmpty(id) then 1 else 0)
    ensures e.CollectBegun? ==> Took(log + [e], id) == 0 && Missed(log + [e], id) == 0
  {
    Fifo.LogOne(log, e);
  }

  lemma {:induction false} AloofLog(log: seq<Event>, es: seq<Event>, id: nat)
    requires forall i :: 0 <= i < |es| ==> Aloof(es[i])
    ensures Took(log + es, id) == Took(log, id) && Missed(log + es, id) == Missed(log, id)
  {
    if es == [] {
      assert log + es == log;
    } else {
      var last := |es| - 1;
      AloofLog(log, es[..last], id);
      assert log + es == (log + es[..last]) + [es[last]];
      assert Aloof(es[last]);
      CountOne(log + es[..last], es[last], id);
    }
  }

  // ----- The invariant -----

  predicate InLoops(pc: PktPc) {
    pc.POut? || pc.POutHeld?
  }

  /** Every client has been visited as the schedule says; a visit takes a packet or
      misses. */
  ghost predicate VisitsKept(log: seq<Event>, ids: seq<nat>, r: nat, k: nat) {
    k <= |ids| && forall x: nat :: Took(log, x) + Missed(log, x) == RoundRobin.Visits(ids, r, k, x)
  }

  ghost predicate NothingYet(log: seq<Event>) {
    forall id: nat :: Took(log, id) == 0 && Missed(log, id) == 0
  }

  ghost predicate CallOk(s: State) {
    && (s.pkt.POutAlloc? ==> NothingYet(s.log))
    && (InLoops(s.pkt) ==> VisitsKept(s.log, s.reg.ids, s.pkt.round, s.pkt.k))
  }

  // ----- Every step -----

  predicate AllAloof(es: seq<Event>) {
    forall i :: 0 <= i < |es| ==> Aloof(es[i])
  }

  /** A step that does not touch the packetiser's part. */
  lemma OthersAloof(s: State, l: Label)
    requires Enabled(s, l) && !l.Pkt?
    ensures AllAloof(EffectOf(s, l).events) && EffectOf(s, l).pkt == s.pkt && EffectOf(s, l).reg == s.reg
  {}

  lemma QuietCall(s: State, s': State, es: seq<Event>)
    requires CallOk(s) && s'.pkt == s.pkt && s'.reg == s.reg && s'.log == s.log + es && AllAloof(es)
    ensures CallOk(s')
  {
    forall id: nat
      ensures Took(s'.log, id) == Took(s.log, id) && Missed(s'.log, id) == Missed(s.log, id)
    {
      AloofLog(s.log, es, id);
    }
  }

  lemma BeginCall(log: seq<Event>)
    ensures NothingYet(log + [CollectBegun])
  {
    forall id: nat
      ensures Took(log + [CollectBegun], id) == 0 && Missed(log + [CollectBegun], id) == 0
    {
      CountOne(log, CollectBegun, id);
    }
  }

  /** The event of a visit counts for the visited client alone. */
  lemma VisitEvent(log: seq<Event>, e: Event, ids: seq<nat>, r: nat, k: nat)
    requires k < |ids| && VisitsKept(log, ids, r, k)
    requires IsTake(e, ids[k]) || e == FoundEmpty(ids[k])
    ensures VisitsKept(log + [e], ids, r, k + 1)
  {
    forall x: nat
      ensures Took(log + [e], x) + Missed(log + [e], x) == RoundRobin.Visits(ids, r, k + 1, x)
    {
      CountOne(log, e, x);
      if IsTake(e, x) && IsTake(e, ids[k]) {
        NameInjective(C2E, x, C2E, ids[k]);
      }
    }
  }

  lemma ReceiveEvent(s: State)
    requires PktEnabled(s, OutReceive) && Consistent(s.reg)
    ensures |OutReceiveEffect(s).events| == 1
    ensures var e := OutReceiveEffect(s).events[0];
            IsTake(e, s.reg.ids[s.pkt.k]) || e == FoundEmpty(s.reg.ids[s.pkt.k])
  {}

  lemma ReceiveCall(s: State)
    requires PktEnabled(s, OutReceive) && Consistent(s.reg) && CallOk(s)
    ensures CallOk(Next(s, Pkt(OutReceive)))
  {
    var es := OutReceiveEffect(s).events;
    ReceiveEvent(s);
    assert es == [es[0]];
    VisitEvent(s.log, es[0], s.reg.ids, s.pkt.round, s.pkt.k);
  }

  lemma NewRoundVisits(log: seq<Event>, ids: seq<nat>, r: nat)
    ensures VisitsKept(log, ids, r, |ids|) ==> VisitsKept(log, ids, r + 1, 0)
  {
    assert forall x: nat :: RoundRobin.Visits(ids, r + 1, 0, x) == RoundRobin.Visits(ids, r, |ids|, x);
  }

  lemma TakeCall(s: State, i: nat)
    requires PktEnabled(s, OutTake(i)) && CallOk(s)
    ensures CallOk(Next(s, Pkt(OutTake(i))))
  {
    assert s.log + OutTakeEffect(s, i).events == s.log;
    NewRoundVisits(s.log, s.reg.ids, s.pkt.round);
  }

  lemma AllocCall(s: State, i: nat)
    requires PktEnabled(s, OutAlloc(i)) && CallOk(s)
    ensures CallOk(Next(s, Pkt(OutAlloc(i))))
  {
    assert s.log + PktEffect(s, OutAlloc(i)).events == s.log;
  }

  /** All other steps of the packetiser happen outside the loops and end outside. */
  lemma OutsideCall(s: State, p: PktStep)
    requires PktEnabled(s, p) && !p.OutCall? && !p.OutAlloc? && !p.OutTake? && !p.OutReceive?
    ensures !PktEffect(s, p).pkt.POutAlloc? && !InLoops(PktEffect(s, p).pkt)
  {}

  lemma StepCall(s: State, l: Label)
    requires Enabled(s, l) && Consistent(s.reg) && CallOk(s)
    ensures CallOk(Next(s, l))
  {
    if !l.Pkt? {
      OthersAloof(s, l);
      QuietCall(s, Next(s, l), EffectOf(s, l).events);
    } else {
      match l.p
      case OutCall => BeginCall(s.log);
      case OutAlloc(i) => AllocCall(s, i);
      case OutTake(i) => TakeCall(s, i);
      case OutReceive => ReceiveCall(s);
      case _ => OutsideCall(s, l.p);
    }
  }

  lemma {:induction false} RunCall(s: State, run: seq<Label>)
    requires Legal(s, run) && Roles.RolesKept(s) && CallOk(s)
    ensures CallOk(Exec(s, run))
  {
    if run != [] {
      var before := run[..|run| - 1];
      RunCall(s, before);
      Roles.RunKeepsRoles(s, before);
      StepCall(Exec(s, before), run[|run| - 1]);
    }
  }

  // ----- Fairness -----

  /** Of two clients whose rings had a packet at each of their visits so far, the first
      has not given two packets more than the second. */
  predicate Evenly(log: seq<Event>, a: nat, b: nat) {
    Missed(log, a) == 0 && Missed(log, b) == 0 ==> Took(log, a) <= Took(log, b) + 1
  }

  /** The same for any two listed clients among `keys`. */
  predicate AllEvenly(s: State, keys: set<nat>) {
    forall i, j :: 0 <= i < |s.reg.ids| && 0 <= j < |s.reg.ids| && s.reg.ids[i] in keys && s.reg.ids[j] in keys ==>
      Evenly(s.log, s.reg.ids[i], s.reg.ids[j])
  }

  /** The adds and removals of a run. */
  function OpsOf(run: seq<Label>): seq<Op> {
    if run == [] then []
    else OpsOf(run[..|run| - 1]) +
         match run[|run| - 1]
         case Pkt(AddClient(memE, memC)) => [Add(memE, memC)]
         case Pkt(RemoveClient(key)) => [Remove(key)]
         case _ => []
  }

  /** The registry inside a run is the registry of its adds and removals. */
  lemma {:induction false} RunReg(run: seq<Label>)
    requires Legal(Init(), run)
    ensures Exec(Init(), run).reg == Run(OpsOf(run))
  {
    if run != [] {
      var before, l := run[..|run| - 1], run[|run| - 1];
      RunReg(before);
      StepReg(Exec(Init(), before), l);
      assert OpsOf(before) + [] == OpsOf(before);
      match l
      case Pkt(AddClient(memE, memC)) => RunOne(OpsOf(before), Add(memE, memC));
      case Pkt(RemoveClient(key)) => RunOne(OpsOf(before), Remove(key));
      case _ =>
    }
  }

  lemma RunOne(ops: seq<Op>, op: Op)
    ensures Run(ops + [op]) == Step(Run(ops), op)
  {
    assert (ops + [op])[..|ops|] == ops;
  }

  /** Within 65534 adds the ids a run has allocated are distinct. */
  lemma DistinctOnRun(run: seq<Label>)
    requires Legal(Init(), run) && |Keys(OpsOf(run))| <= MAX_ADDS
    ensures Distinct(Exec(Init(), run).reg.ids)
  {
    RunReg(run);
    RunFresh(OpsOf(run));
  }

  /** In two rounds over the list any two registered ids come in turn. */
  predicate InTurn(reg: Reg) {
    RoundRobin.EvenlyListed(reg.ids, reg.clients.Keys, 2 * |reg.ids| + 1)
  }

  lemma EvenState(s: State, keys: set<nat>)
    requires InLoops(s.pkt) && VisitsKept(s.log, s.reg.ids, s.pkt.round, s.pkt.k)
    requires RoundRobin.EvenlyListed(s.reg.ids, keys, 2 * |s.reg.ids| + 1)
    ensures AllEvenly(s, keys)
  {
    var ids := s.reg.ids;
    forall i, j | 0 <= i < |ids| && 0 <= j < |ids| && ids[i] in keys && ids[j] in keys
      ensures Evenly(s.log, ids[i], ids[j])
    {
      var cap := Took(s.log, ids[i]) + 1;
      FairCalls.AnyCap(ids, ids[i], ids[j], cap);
      RoundRobin.EvenVisits(ids, s.pkt.round, s.pkt.k, ids[i], ids[j], cap);
    }
  }

  /** The state is inside a call, and fair to all of `keys`, or in no call. */
  ghost predicate FairIn(s: State, keys: set<nat>) {
    InLoops(s.pkt) ==> VisitsKept(s.log, s.reg.ids, s.pkt.round, s.pkt.k) && AllEvenly(s, keys)
  }

  lemma InTurnState(s: State)
    requires CallOk(s) && InTurn(s.reg)
    ensures FairIn(s, s.reg.clients.Keys)
  {
    if InLoops(s.pkt) {
      EvenState(s, s.reg.clients.Keys);
    }
  }

  lemma DistinctState(s: State)
    requires CallOk(s) && Distinct(s.reg.ids)
    ensures FairIn(s, set x | x in s.reg.ids)
  {
    var keys := set x | x in s.reg.ids;
    if InLoops(s.pkt) {
      FairCalls.DistinctIsEven(s.reg.ids, keys, 2 * |s.reg.ids| + 1);
      EvenState(s, keys);
    }
  }

  /** On every run, at every point of every call of `store_outgoing`: every client's
      visits are takes and misses, and if registered ids come in turn, of two clients
      that had a packet whenever they were visited neither has given two packets more
      than the other. */
  lemma {:induction false} FairWhenEven(run: seq<Label>)
    requires Legal(Init(), run)
    ensures CallOk(Exec(Init(), run))
    ensures InTurn(Exec(Init(), run).reg) ==> FairIn(Exec(Init(), run), Exec(Init(), run).reg.clients.Keys)
  {
    var s := Exec(Init(), run);
    CallOkOnRun(run);
    if InTurn(s.reg) {
      InTurnState(s);
    }
  }

  lemma {:induction false} CallOkOnRun(run: seq<Label>)
    requires Legal(Init(), run)
    ensures CallOk(Exec(Init(), run))
  {
    Roles.InitRoles();
    RunCall(Init(), run);
  }

  /** On every run with at most 65534 adds the calls are fair to all listed clients. */
  lemma {:induction false} FairOnEveryRun(run: seq<Label>)
    requires Legal(Init(), run) && |Keys(OpsOf(run))| <= MAX_ADDS
    ensures FairIn(Exec(Init(), run), set x | x in Exec(Init(), run).reg.ids)
  {
    CallOkOnRun(run);
    DistinctOnRun(run);
    DistinctState(Exec(Init(), run));
  }
}
