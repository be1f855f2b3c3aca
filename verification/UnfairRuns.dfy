/** Runs on which `store_outgoing` is unfair: whenever the registry does not list its
    clients in turn, there is one. */
module UnfairRuns {
  import opened Places
  import opened Registry
  import opened Dataplane
  import opened Calls
  import Collection
  import RoundRobin
  import FairCalls
  import Fairness
  import Roles

  // ----- One run after another -----

  /** Some run leads from one state to the other. */
  ghost predicate Leads(s: State, s': State) {
    exists run :: Legal(s, run) && Exec(s, run) == s'
  }

  lemma LeadsNowhere(s: State)
    ensures Leads(s, s)
  {
    assert Legal(s, []) && Exec(s, []) == s;
  }

  lemma LeadsOn(s: State, s': State, l: Label)
    requires Leads(s, s') && Enabled(s', l)
    ensures Leads(s, Next(s', l))
  {
    var run :| Legal(s, run) && Exec(s, run) == s';
    ExecOne(s, run, l);
  }

  // ----- The registry -----

  /** The pool is full and nothing else holds an mbuf; the packetiser is idle. */
  ghost predicate Fresh(s: State, reg: Reg) {
    && s.pkt.PIdle? && s.reg == reg
    && |Get(s.at, Free)| == NUM_MBUFS && forall p :: p != Free ==> Get(s.at, p) == []
  }

  lemma AddFresh(s: State, memE: bool, memC: bool)
    requires Fresh(s, s.reg)
    ensures Enabled(s, Pkt(AddClient(memE, memC)))
    ensures Fresh(Next(s, Pkt(AddClient(memE, memC))), Added(s.reg, memE, memC))
  {}

  lemma EmptyRings(at: Store, a: string, b: string, p: Place)
    requires Get(at, InRing(a)) == [] && Get(at, InRing(b)) == []
    ensures var ts := [DequeueMove(a, 0), DequeueMove(b, 0)]; CanDoAll(at, ts) && Get(DoAll(at, ts), p) == Get(at, p)
  {
    var t, u := DequeueMove(a, 0), DequeueMove(b, 0);
    NothingMoved(at, t, p);
    NothingMoved(at, t, u.from);
    NothingMoved(Do(at, t), u, p);
    DoTwo(at, t, u);
  }

  lemma NothingMoved(at: Store, t: Transfer, p: Place)
    requires CanDo(at, t) && t.Move? && t.count == 0 && t.first == 0 && t.how.Keep?
    ensures Get(Do(at, t), p) == Get(at, p)
  {
    Moved(at, t);
    var src := Get(at, t.from);
    assert src[..0] + src[0..] == src && src[0..0] == [];
  }

  lemma RemoveFresh(s: State, key: nat)
    requires Fresh(s, s.reg) && key in s.reg.ids
    ensures Enabled(s, Pkt(RemoveClient(key)))
    ensures Fresh(Next(s, Pkt(RemoveClient(key))), Removed(s.reg, key))
  {
    if key in s.reg.clients {
      var Channel(c2e, e2c) := s.reg.clients[key];
      forall p
        ensures Get(Next(s, Pkt(RemoveClient(key))).at, p) == Get(s.at, p)
      {
        EmptyRings(s.at, c2e, e2c, p);
      }
    }
  }

  lemma InitFresh()
    ensures Fresh(Init(), INITIAL)
  {}

  /** Every registry that adds and removals make is reached with a full pool. */
  lemma {:induction false} RegistryRun(ops: seq<Op>) returns (s: State)
    ensures Leads(Init(), s) && Fresh(s, Run(ops))
  {
    if ops == [] {
      s := Init();
      LeadsNowhere(s);
      InitFresh();
    } else {
      s := RegistryRun(ops[..|ops| - 1]);
      match ops[|ops| - 1] {
        case Add(memE, memC) =>
          AddFresh(s, memE, memC);
          LeadsOn(Init(), s, Pkt(AddClient(memE, memC)));
          s := Next(s, Pkt(AddClient(memE, memC)));
        case Remove(key) =>
          if key in s.reg.ids {
            RemoveFresh(s, key);
            LeadsOn(Init(), s, Pkt(RemoveClient(key)));
            s := Next(s, Pkt(RemoveClient(key)));
          }
      }
    }
  }

  // ----- The clients send -----

  function Way(s: State, id: nat): string
    requires id in s.reg.clients
  {
    s.reg.clients[id].clientToEngine
  }

  /** Client `id` has sent `n` more packets. */
  ghost predicate SentMore(s: State, s': State, id: nat, n: nat)
    requires id in s.reg.clients
  {
    && s'.pkt == s.pkt && s'.reg == s.reg
    && |Get(s'.at, Free)| + n == |Get(s.at, Free)| && Used(s'.at, Way(s, id)) == Used(s.at, Way(s, id)) + n
    && Same(s.at, s'.at, {Free, InRing(Way(s, id))})
  }

  lemma FillStep(s: State, id: nat)
    requires id in s.reg.clients && Get(s.at, Free) != [] && Get(s.at, ClientVec(id)) == []
    ensures Enabled(s, Env(ClientAlloc(id, 0, 0)))
    ensures var s' := Next(s, Env(ClientAlloc(id, 0, 0)));
            && s'.pkt == s.pkt && s'.reg == s.reg
            && |Get(s'.at, Free)| + 1 == |Get(s.at, Free)| && |Get(s'.at, ClientVec(id))| == 1
            && Same(s.at, s'.at, {Free, ClientVec(id)})
  {
    var t := Move(Free, 0, 1, ClientVec(id), Fill([Payload(id, 0)]));
    OneMove(s, Env(ClientAlloc(id, 0, 0)), t);
    Moved(s.at, t);
  }

  lemma SendStep(s: State, id: nat)
    requires id in s.reg.clients && |Get(s.at, ClientVec(id))| == 1 && HasRoom(s.at, Way(s, id))
    ensures Enabled(s, Env(ClientSend(id)))
    ensures var s' := Next(s, Env(ClientSend(id)));
            && s'.pkt == s.pkt && s'.reg == s.reg
            && Get(s'.at, ClientVec(id)) == [] && Used(s'.at, Way(s, id)) == Used(s.at, Way(s, id)) + 1
            && Same(s.at, s'.at, {ClientVec(id), InRing(Way(s, id))})
  {
    PopPushStep(s, Env(ClientSend(id)), ClientVec(id), InRing(Way(s, id)));
  }

  lemma SendOne(s0: State, s: State, id: nat) returns (s': State)
    requires Leads(s0, s) && id in s.reg.clients
    requires Get(s.at, Free) != [] && Get(s.at, ClientVec(id)) == [] && HasRoom(s.at, Way(s, id))
    ensures Leads(s0, s') && SentMore(s, s', id, 1)
  {
    FillStep(s, id);
    LeadsOn(s0, s, Env(ClientAlloc(id, 0, 0)));
    var s1 := Next(s, Env(ClientAlloc(id, 0, 0)));
    SendStep(s1, id);
    LeadsOn(s0, s1, Env(ClientSend(id)));
    s' := Next(s1, Env(ClientSend(id)));
  }

  lemma {:induction false} SendMany(s0: State, s: State, id: nat, n: nat) returns (s': State)
    requires Leads(s0, s) && id in s.reg.clients && Get(s.at, ClientVec(id)) == []
    requires n <= |Get(s.at, Free)| && Used(s.at, Way(s, id)) + n <= RING_USABLE
    ensures Leads(s0, s') && SentMore(s, s', id, n)
  {
    s' := s;
    if n > 0 {
      s' := SendMany(s0, s, id, n - 1);
      s' := SendOne(s0, s', id);
    }
  }

  // ----- The call begins -----

  lemma BeginOut(s: State)
    requires s.pkt.PIdle?
    ensures Enabled(s, Pkt(OutCall))
    ensures var s' := Next(s, Pkt(OutCall));
            s'.pkt == POutAlloc(0) && s'.reg == s.reg && s'.at == s.at && Fairness.NothingYet(s'.log)
  {
    Fairness.BeginCall(s.log);
  }

  lemma AsideStep(s: State)
    requires s.pkt.POutAlloc? && s.pkt.done < BURST_MAX && Get(s.at, Free) != []
    ensures Enabled(s, Pkt(OutAlloc(0)))
    ensures var s' := Next(s, Pkt(OutAlloc(0)));
            && s'.pkt == POutAlloc(s.pkt.done + 1) && s'.reg == s.reg && s'.log == s.log
            && |Get(s'.at, Free)| + 1 == |Get(s.at, Free)| && |Get(s'.at, PktVec)| == |Get(s.at, PktVec)| + 1
            && Same(s.at, s'.at, {Free, PktVec})
  {
    AllocStep(s, Pkt(OutAlloc(0)), PktVec);
  }

  lemma AsideDone(s: State)
    requires s.pkt.POutAlloc? && s.pkt.done == BURST_MAX && PktEnabled(s, OutAlloc(0))
    ensures var s' := Next(s, Pkt(OutAlloc(0)));
            s'.pkt == POut(BURST_MAX, 0, 0) && s'.reg == s.reg && s'.log == s.log && s'.at == s.at
  {}

  lemma {:induction false} AsideMany(s0: State, s: State, n: nat) returns (s': State)
    requires Leads(s0, s) && s.pkt == POutAlloc(0) && n <= BURST_MAX && n <= |Get(s.at, Free)|
    ensures Leads(s0, s') && s'.pkt == POutAlloc(n) && s'.reg == s.reg && s'.log == s.log
    ensures |Get(s'.at, Free)| + n == |Get(s.at, Free)| && |Get(s'.at, PktVec)| == |Get(s.at, PktVec)| + n
    ensures Same(s.at, s'.at, {Free, PktVec})
  {
    s' := s;
    if n > 0 {
      s' := AsideMany(s0, s, n - 1);
      AsideStep(s');
      LeadsOn(s0, s', Pkt(OutAlloc(0)));
      s' := Next(s', Pkt(OutAlloc(0)));
    }
  }

  lemma AsideAll(s0: State, s: State) returns (s': State)
    requires Leads(s0, s) && s.pkt.PIdle? && BURST_MAX < |Get(s.at, Free)|
    ensures Leads(s0, s') && s'.pkt == POut(BURST_MAX, 0, 0) && s'.reg == s.reg && Fairness.NothingYet(s'.log)
    ensures |Get(s'.at, Free)| + BURST_MAX == |Get(s.at, Free)|
    ensures |Get(s'.at, PktVec)| == |Get(s.at, PktVec)| + BURST_MAX
    ensures Same(s.at, s'.at, {Free, PktVec})
  {
    BeginOut(s);
    LeadsOn(s0, s, Pkt(OutCall));
    s' := AsideMany(s0, Next(s, Pkt(OutCall)), BURST_MAX);
    AsideDone(s');
    LeadsOn(s0, s', Pkt(OutAlloc(0)));
    s' := Next(s', Pkt(OutAlloc(0)));
  }

  // ----- The visits -----

  lemma HoldStep(s: State)
    requires PktEnabled(s, OutTake(0)) && s.pkt.round < s.pkt.len && s.pkt.k < |s.reg.ids|
    requires Get(s.at, Free) != [] && Get(s.at, PktHeld) == []
    ensures var s' := Next(s, Pkt(OutTake(0)));
            && Collection.Held(s.at, s'.at) && s'.pkt == POutHeld(s.pkt.len, s.pkt.round, s.pkt.k)
            && s'.reg == s.reg && s'.log == s.log
  {
    AllocStep(s, Pkt(OutTake(0)), PktHeld);
  }

  /** The event of a visit: a take if the client has a packet, else a miss. */
  lemma ReceiveEvent(s: State)
    requires PktEnabled(s, OutReceive) && Consistent(s.reg)
    ensures var s' := Next(s, Pkt(OutReceive));
            var id := s.reg.ids[s.pkt.k];
            && s'.pkt == POut(s.pkt.len, s.pkt.round, s.pkt.k + 1) && s'.reg == s.reg
            && |s'.log| == |s.log| + 1 && s'.log[..|s.log|] == s.log
            && var e := s'.log[|s.log|];
               if Collection.Ready(s, s.pkt.k) then Fairness.IsTake(e, id) else e == FoundEmpty(id)
  {}

  lemma TookAfter(log: seq<Event>, log': seq<Event>, id: nat, took: bool, x: nat)
    requires |log'| == |log| + 1 && log'[..|log|] == log
    requires if took then Fairness.IsTake(log'[|log|], id) else log'[|log|] == FoundEmpty(id)
    ensures Fairness.Took(log', x) == Fairness.Took(log, x) + if took && x == id then 1 else 0
  {
    assert log' == log + [log'[|log|]];
    Fairness.CountOne(log, log'[|log|], x);
    if took && Fairness.IsTake(log'[|log|], x) {
      NameInjective(C2E, x, C2E, id);
    }
  }

  /** The state after the two steps of a visit. */
  function AfterVisit(s: State): State
    requires PktEnabled(s, OutTake(0)) && s.pkt.round < s.pkt.len && s.pkt.k < |s.reg.ids|
    requires Get(s.at, Free) != [] && Get(s.at, PktHeld) == []
  {
    HoldStep(s);
    Next(Next(s, Pkt(OutTake(0))), Pkt(OutReceive))
  }

  /** Both steps of a visit: a placeholder is allocated, then swapped or returned. */
  ghost predicate TwoSteps(s: State, s1: State, s2: State, k: nat) {
    && k < |s.reg.ids| && s1.reg == s.reg == s2.reg && Collection.Held(s.at, s1.at)
    && if Collection.Ready(s1, k) then Collection.Swapped(s1.at, s2.at, Way(s, s.reg.ids[k]))
       else Collection.Returned(s1.at, s2.at)
  }

  lemma VisitSteps(s: State)
    requires s.pkt.POut? && s.pkt.round < s.pkt.len && s.pkt.k < |s.reg.ids|
    requires Get(s.at, Free) != [] && Get(s.at, PktHeld) == [] && Consistent(s.reg)
    ensures TwoSteps(s, Next(s, Pkt(OutTake(0))), AfterVisit(s), s.pkt.k)
  {
    var s1 := Next(s, Pkt(OutTake(0)));
    HoldStep(s);
    ReceiveEvent(s1);
    if Collection.Ready(s1, s.pkt.k) {
      Collection.SwapStep(s1);
    } else {
      Collection.ReturnStep(s1);
    }
  }

  lemma StepsSeen(s: State, s1: State, s2: State, k: nat)
    requires TwoSteps(s, s1, s2, k) && Consistent(s.reg)
    ensures RoundRobin.Visited(Collection.Seen(s), k) == Collection.Seen(s2) && Get(s2.at, PktHeld) == []
  {
    if Collection.Ready(s1, k) {
      Collection.BothSteps(s.at, s1.at, s2.at, Way(s, s.reg.ids[k]));
      Collection.SeenTaking(s, s2, k);
    } else {
      Collection.SeenReturning(s, s1, s2, k);
    }
  }

  lemma VisitSeen(s: State)
    requires s.pkt.POut? && s.pkt.round < s.pkt.len && s.pkt.k < |s.reg.ids|
    requires Get(s.at, Free) != [] && Get(s.at, PktHeld) == [] && Consistent(s.reg)
    ensures RoundRobin.Visited(Collection.Seen(s), s.pkt.k) == Collection.Seen(AfterVisit(s))
    ensures Get(AfterVisit(s).at, PktHeld) == []
  {
    VisitSteps(s);
    StepsSeen(s, Next(s, Pkt(OutTake(0))), AfterVisit(s), s.pkt.k);
  }

  /** The counts at a point of the schedule: what each client has given, what its ring
      still holds, and how many buffers are left. */
  ghost predicate Counted(start: RoundRobin.View, v: RoundRobin.View, r: nat, k: nat, takes: seq<nat>) {
    && v.ids == start.ids && k <= |start.ids| && RoundRobin.AtPoint(start.ids, start.rings, takes, r, k)
    && |takes| == RoundRobin.Given(start.ids, start.rings, r, k) && |v.free| + |takes| == |start.free|
    && forall x: nat :: RoundRobin.Backlog(v.rings, x) + RoundRobin.Occurs(takes, x)
                        == RoundRobin.Backlog(start.rings, x)
  }

  lemma CountedFirst(start: RoundRobin.View)
    ensures Counted(start, start, 0, 0, [])
  {}

  lemma CountedNext(start: RoundRobin.View, v: RoundRobin.View, r: nat, k: nat, takes: seq<nat>)
    requires Counted(start, v, r, k, takes) && k < |start.ids| && v.free != []
    ensures Counted(start, RoundRobin.Visited(v, k), r, k + 1, RoundRobin.Takes(v, takes, k))
  {
    RoundRobin.OccursOne(takes, v.ids[k]);
  }

  lemma CountedRound(start: RoundRobin.View, v: RoundRobin.View, r: nat, takes: seq<nat>)
    requires Counted(start, v, r, |start.ids|, takes)
    ensures Counted(start, v, r + 1, 0, takes)
  {
    var ids := start.ids;
    assert forall x: nat :: RoundRobin.Visits(ids, r + 1, 0, x) == RoundRobin.Visits(ids, r, |ids|, x);
  }

  /** The call, begun with view `start`, is at a point of its schedule, and the log says
      what was taken. */
  ghost predicate Tracks(s: State, reg: Reg, start: RoundRobin.View, r: nat, k: nat, takes: seq<nat>) {
    && s.pkt == POut(|start.aside|, r, k) && s.reg == reg && Get(s.at, PktHeld) == []
    && Counted(start, Collection.Seen(s), r, k, takes)
    && forall x: nat :: Fairness.Took(s.log, x) == RoundRobin.Occurs(takes, x)
  }

  lemma SameReady(s: State, s1: State, k: nat)
    requires k < |s.reg.ids| && s1.reg == s.reg && Collection.Held(s.at, s1.at)
    ensures Collection.Ready(s1, k) <==> RoundRobin.Backlog(Collection.Seen(s).rings, s.reg.ids[k]) > 0
  {}

  /** The log has got one event more: a take if the client had a packet, else a miss. */
  ghost predicate OneVisitMore(log: seq<Event>, log': seq<Event>, id: nat, took: bool) {
    && |log'| == |log| + 1 && log'[..|log|] == log
    && if took then Fairness.IsTake(log'[|log|], id) else log'[|log|] == FoundEmpty(id)
  }

  lemma VisitLog(s: State)
    requires s.pkt.POut? && s.pkt.round < s.pkt.len && s.pkt.k < |s.reg.ids|
    requires Get(s.at, Free) != [] && Get(s.at, PktHeld) == [] && Consistent(s.reg)
    ensures var s' := AfterVisit(s);
            var id := s.reg.ids[s.pkt.k];
            && s'.pkt == POut(s.pkt.len, s.pkt.round, s.pkt.k + 1) && s'.reg == s.reg
            && OneVisitMore(s.log, s'.log, id, RoundRobin.Backlog(Collection.Seen(s).rings, id) > 0)
  {
    var s1 := Next(s, Pkt(OutTake(0)));
    HoldStep(s);
    ReceiveEvent(s1);
    SameReady(s, s1, s.pkt.k);
  }

  /** So the log goes on saying what was taken. */
  lemma LogTracks(log: seq<Event>, log': seq<Event>, v: RoundRobin.View, k: nat, takes: seq<nat>)
    requires k < |v.ids| && OneVisitMore(log, log', v.ids[k], RoundRobin.Backlog(v.rings, v.ids[k]) > 0)
    requires forall x: nat :: Fairness.Took(log, x) == RoundRobin.Occurs(takes, x)
    ensures forall x: nat :: Fairness.Took(log', x) == RoundRobin.Occurs(RoundRobin.Takes(v, takes, k), x)
  {
    RoundRobin.OccursOne(takes, v.ids[k]);
    forall x: nat
      ensures Fairness.Took(log', x) == RoundRobin.Occurs(RoundRobin.Takes(v, takes, k), x)
    {
      TookAfter(log, log', v.ids[k], RoundRobin.Backlog(v.rings, v.ids[k]) > 0, x);
    }
  }

  /** Some run comes to this point of the schedule. */
  ghost predicate Arrives(s0: State, reg: Reg, start: RoundRobin.View, r: nat, k: nat) {
    exists s, takes :: Leads(s0, s) && Tracks(s, reg, start, r, k, takes)
  }

  lemma TracksNext(s: State, s': State, reg: Reg, start: RoundRobin.View, r: nat, k: nat, takes: seq<nat>)
    requires Tracks(s, reg, start, r, k, takes) && r < |start.aside| && k < |start.ids|
    requires RoundRobin.Given(start.ids, start.rings, r, k) < |start.free|
    requires var v := Collection.Seen(s);
             && k < |v.ids| && v.free != [] && Collection.Seen(s') == RoundRobin.Visited(v, k)
             && OneVisitMore(s.log, s'.log, v.ids[k], RoundRobin.Backlog(v.rings, v.ids[k]) > 0)
    requires s'.pkt == POut(|start.aside|, r, k + 1) && s'.reg == reg && Get(s'.at, PktHeld) == []
    ensures Tracks(s', reg, start, r, k + 1, RoundRobin.Takes(Collection.Seen(s), takes, k))
  {
    LogTracks(s.log, s'.log, Collection.Seen(s), k, takes);
    CountedNext(start, Collection.Seen(s), r, k, takes);
  }

  lemma LeadsByVisit(s0: State, s: State)
    requires Leads(s0, s) && s.pkt.POut? && s.pkt.round < s.pkt.len && s.pkt.k < |s.reg.ids|
    requires Get(s.at, Free) != [] && Get(s.at, PktHeld) == []
    ensures Leads(s0, AfterVisit(s))
  {
    HoldStep(s);
    LeadsOn(s0, s, Pkt(OutTake(0)));
    LeadsOn(s0, Next(s, Pkt(OutTake(0))), Pkt(OutReceive));
  }

  lemma TracksVisit(s: State, reg: Reg, start: RoundRobin.View, r: nat, k: nat, takes: seq<nat>)
    requires Tracks(s, reg, start, r, k, takes) && r < |start.aside| && k < |start.ids|
    requires RoundRobin.Given(start.ids, start.rings, r, k) < |start.free|
    ensures s.pkt == POut(|start.aside|, r, k) && s.reg == reg && k < |reg.ids|
    ensures Get(s.at, Free) != [] && Get(s.at, PktHeld) == []
  {}

  lemma VisitTracks(s0: State, s: State, reg: Reg, start: RoundRobin.View, r: nat, k: nat, takes: seq<nat>)
    requires Leads(s0, s) && Tracks(s, reg, start, r, k, takes) && Consistent(reg)
    requires r < |start.aside| && k < |start.ids| && RoundRobin.Given(start.ids, start.rings, r, k) < |start.free|
    ensures Arrives(s0, reg, start, r, k + 1)
  {
    TracksVisit(s, reg, start, r, k, takes);
    VisitSeen(s);
    VisitLog(s);
    LeadsByVisit(s0, s);
    TracksNext(s, AfterVisit(s), reg, start, r, k, takes);
  }

  lemma RoundStep(s: State)
    requires s.pkt.POut? && s.pkt.round < s.pkt.len && s.reg.ids != [] && s.pkt.k == |s.reg.ids|
    requires PktEnabled(s, OutTake(0))
    ensures var s' := Next(s, Pkt(OutTake(0)));
            s' == s.(pkt := POut(s.pkt.len, s.pkt.round + 1, 0), log := s'.log) && s'.log == s.log
  {}

  lemma RoundTracks(s0: State, s: State, reg: Reg, start: RoundRobin.View, r: nat, takes: seq<nat>)
    returns (s': State)
    requires Leads(s0, s) && Tracks(s, reg, start, r, |start.ids|, takes)
    requires r < |start.aside| && start.ids != []
    ensures Leads(s0, s') && Tracks(s', reg, start, r + 1, 0, takes)
  {
    s' := Next(s, Pkt(OutTake(0)));
    RoundStep(s);
    CountedRound(start, Collection.Seen(s), r, takes);
    LeadsOn(s0, s, Pkt(OutTake(0)));
  }

  lemma ArriveByVisit(s0: State, reg: Reg, start: RoundRobin.View, r: nat, k: nat)
    requires Arrives(s0, reg, start, r, k) && Consistent(reg)
    requires r < |start.aside| && k < |start.ids| && RoundRobin.Given(start.ids, start.rings, r, k) < |start.free|
    ensures Arrives(s0, reg, start, r, k + 1)
  {
    var s, takes :| Leads(s0, s) && Tracks(s, reg, start, r, k, takes);
    VisitTracks(s0, s, reg, start, r, k, takes);
  }

  lemma ArriveByRound(s0: State, reg: Reg, start: RoundRobin.View, r: nat)
    requires Arrives(s0, reg, start, r, |start.ids|) && r < |start.aside| && start.ids != []
    ensures Arrives(s0, reg, start, r + 1, 0)
  {
    var s, takes :| Leads(s0, s) && Tracks(s, reg, start, r, |start.ids|, takes);
    var s' := RoundTracks(s0, s, reg, start, r, takes);
  }

  /** `p` carries over from this point to the next one, as long as buffers are left. */
  predicate GoesOn(p: (nat, nat) -> bool, start: RoundRobin.View, r: nat, k: nat) {
    p(r, k) && r < |start.aside| ==>
      if k == |start.ids| then p(r + 1, 0)
      else k < |start.ids| && RoundRobin.Given(start.ids, start.rings, r, k) < |start.free| ==> p(r, k + 1)
  }

  /** What carries over from point to point holds everywhere. */
  lemma {:induction false} Walk(p: (nat, nat) -> bool, start: RoundRobin.View, r: nat, k: nat)
    requires p(0, 0) && start.ids != [] && r < |start.aside| && k <= |start.ids|
    requires RoundRobin.Given(start.ids, start.rings, r, k) < |start.free|
    requires forall a: nat, b: nat :: GoesOn(p, start, a, b)
    ensures p(r, k)
    decreases r, k
  {
    if k > 0 {
      RoundRobin.GivenMonotone(start.ids, start.rings, r, k - 1, r, k);
      Walk(p, start, r, k - 1);
      assert GoesOn(p, start, r, k - 1);
    } else if r > 0 {
      Walk(p, start, r - 1, |start.ids|);
      assert GoesOn(p, start, r - 1, |start.ids|);
    }
  }

  /** With buffers to spare the call comes to every point of its schedule. */
  lemma ArriveAnywhere(s0: State, reg: Reg, start: RoundRobin.View, r: nat, k: nat)
    requires Arrives(s0, reg, start, 0, 0) && Consistent(reg) && start.ids != []
    requires r < |start.aside| && k <= |start.ids|
    requires RoundRobin.Given(start.ids, start.rings, r, k) < |start.free|
    ensures Arrives(s0, reg, start, r, k)
  {
    var p := (a: nat, b: nat) => Arrives(s0, reg, start, a, b);
    forall a: nat, b: nat
      ensures GoesOn(p, start, a, b)
    {
      ArrivesNext(s0, reg, start, a, b);
    }
    Walk(p, start, r, k);
    assert p(r, k);
  }

  lemma ArrivesNext(s0: State, reg: Reg, start: RoundRobin.View, r: nat, k: nat)
    requires Consistent(reg) && start.ids != []
    ensures GoesOn((a: nat, b: nat) => Arrives(s0, reg, start, a, b), start, r, k)
  {
    if Arrives(s0, reg, start, r, k) && r < |start.aside| {
      if k == |start.ids| {
        ArriveByRound(s0, reg, start, r);
      } else if k < |start.ids| && RoundRobin.Given(start.ids, start.rings, r, k) < |start.free| {
        ArriveByVisit(s0, reg, start, r, k);
      }
    }
  }

  // ----- The unfair runs -----

  /** A run that ends inside a call, with this registry, and unfairly. */
  ghost predicate Unfair(run: seq<Label>, reg: Reg) {
    && Legal(Init(), run) && Exec(Init(), run).reg == reg
    && Fairness.InLoops(Exec(Init(), run).pkt)
    && !Fairness.AllEvenly(Exec(Init(), run), reg.clients.Keys)
  }

  lemma SeparateWays(r: Reg, id: nat, id': nat)
    requires Consistent(r) && id in r.clients && id' in r.clients && id != id'
    ensures r.clients[id].clientToEngine != r.clients[id'].clientToEngine
  {
    if r.clients[id].clientToEngine == r.clients[id'].clientToEngine {
      Collection.DistinctWays(r, id, id');
    }
  }

  /** Two clients have filled their rings, and no other client has sent anything. */
  ghost predicate TwoFilled(s: State, x: nat, y: nat) {
    forall z :: z in s.reg.clients ==> Used(s.at, Way(s, z)) == if z == x || z == y then RING_USABLE else 0
  }

  lemma FirstFilled(s: State, s1: State, x: nat, z: nat)
    requires Consistent(s.reg) && x in s.reg.clients && z in s.reg.clients && SentMore(s, s1, x, RING_USABLE)
    ensures z != x ==> Used(s1.at, Way(s, z)) == Used(s.at, Way(s, z))
  {
    if z != x {
      SeparateWays(s.reg, z, x);
    }
  }

  lemma BothFilled(s: State, s1: State, s2: State, x: nat, y: nat)
    requires Consistent(s.reg) && Fresh(s, s.reg) && x in s.reg.clients && y in s.reg.clients && x != y
    requires SentMore(s, s1, x, RING_USABLE) && SentMore(s1, s2, y, RING_USABLE)
    ensures TwoFilled(s2, x, y)
  {
    forall z | z in s.reg.clients
      ensures Used(s2.at, Way(s2, z)) == if z == x || z == y then RING_USABLE else 0
    {
      FirstFilled(s, s1, x, z);
      FirstFilled(s1, s2, y, z);
    }
  }

  /** Clients `x` and `y` have sent all a ring can hold. */
  lemma FilledRun(ops: seq<Op>, x: nat, y: nat) returns (s: State)
    requires x in Run(ops).clients && y in Run(ops).clients && x != y
    ensures Leads(Init(), s) && s.pkt.PIdle? && s.reg == Run(ops) && TwoFilled(s, x, y)
    ensures Get(s.at, PktHeld) == [] && Get(s.at, PktVec) == []
    ensures |Get(s.at, Free)| == NUM_MBUFS - 2 * RING_USABLE
  {
    var s1 := RegistryRun(ops);
    RunConsistent(ops);
    s := FillTwo(Init(), s1, x, y);
  }

  lemma FillTwo(s0: State, s: State, x: nat, y: nat) returns (s2: State)
    requires Leads(s0, s) && Fresh(s, s.reg) && Consistent(s.reg)
    requires x in s.reg.clients && y in s.reg.clients && x != y
    ensures Leads(s0, s2) && s2.pkt.PIdle? && s2.reg == s.reg && TwoFilled(s2, x, y)
    ensures Get(s2.at, PktHeld) == [] && Get(s2.at, PktVec) == []
    ensures |Get(s2.at, Free)| == NUM_MBUFS - 2 * RING_USABLE
  {
    var s1 := SendMany(s0, s, x, RING_USABLE);
    StillEmpty(s, s1, x, y);
    s2 := SendMany(s0, s1, y, RING_USABLE);
    BothFilled(s, s1, s2, x, y);
    NotHeld(s, s1, s2, x, y);
  }

  lemma StillEmpty(s: State, s1: State, x: nat, y: nat)
    requires Consistent(s.reg) && Fresh(s, s.reg) && x in s.reg.clients && y in s.reg.clients && x != y
    requires SentMore(s, s1, x, RING_USABLE)
    ensures s1.reg == s.reg && Get(s1.at, ClientVec(y)) == [] && Used(s1.at, Way(s1, y)) == 0
    ensures |Get(s1.at, Free)| == NUM_MBUFS - RING_USABLE
  {
    FirstFilled(s, s1, x, y);
  }

  lemma NotHeld(s: State, s1: State, s2: State, x: nat, y: nat)
    requires Fresh(s, s.reg) && x in s.reg.clients && y in s.reg.clients
    requires SentMore(s, s1, x, RING_USABLE) && SentMore(s1, s2, y, RING_USABLE)
    ensures s2.pkt.PIdle? && s2.reg == s.reg && |Get(s2.at, Free)| == NUM_MBUFS - 2 * RING_USABLE
    ensures Get(s2.at, PktHeld) == [] && Get(s2.at, PktVec) == []
  {}

  /** And the call has begun. */
  lemma CallBegins(ops: seq<Op>, x: nat, y: nat) returns (s: State)
    requires x in Run(ops).clients && y in Run(ops).clients && x != y
    ensures Leads(Init(), s) && s.pkt == POut(BURST_MAX, 0, 0) && s.reg == Run(ops) && Fairness.NothingYet(s.log)
    ensures Get(s.at, PktHeld) == [] && |Get(s.at, PktVec)| == BURST_MAX && TwoFilled(s, x, y)
    ensures |Get(s.at, Free)| == NUM_MBUFS - 2 * RING_USABLE - BURST_MAX
  {
    var s1 := FilledRun(ops, x, y);
    s := AsideAll(Init(), s1);
  }

  lemma BeginTracks(s: State)
    requires s.pkt == POut(BURST_MAX, 0, 0) && Get(s.at, PktHeld) == [] && Fairness.NothingYet(s.log)
    requires |Get(s.at, PktVec)| == BURST_MAX
    ensures Tracks(s, s.reg, Collection.Seen(s), 0, 0, [])
  {
    CountedFirst(Collection.Seen(s));
  }

  /** Two listed and registered clients whose visits are two apart, before the first
      one's ring can be empty. */
  predicate TwoApart(reg: Reg, i: nat, j: nat, r: nat, k: nat) {
    && i < |reg.ids| && j < |reg.ids| && reg.ids[i] in reg.clients && reg.ids[j] in reg.clients
    && k <= |reg.ids| && r <= 1
    && RoundRobin.Visits(reg.ids, r, k, reg.ids[j]) + 1 < RoundRobin.Visits(reg.ids, r, k, reg.ids[i]) < RING_USABLE
  }

  lemma SeenTwo(s: State, x: nat, y: nat)
    requires TwoFilled(s, x, y) && x in s.reg.clients && y in s.reg.clients
    ensures FairCalls.OnlyTwo(Collection.Seen(s).rings, x, y)
    ensures var rings := Collection.Seen(s).rings;
            RoundRobin.Backlog(rings, x) == RoundRobin.Backlog(rings, y) == RING_USABLE
  {
    forall z | z in s.reg.clients && z != x && z != y
      ensures Collection.Seen(s).rings[z] == []
    {
      assert Used(s.at, Way(s, z)) == 0;
    }
  }

  lemma UnfairState(ops: seq<Op>, i: nat, j: nat, r: nat, k: nat)
    returns (s: State, start: RoundRobin.View, takes: seq<nat>)
    requires TwoApart(Run(ops), i, j, r, k)
    ensures Leads(Init(), s) && Tracks(s, Run(ops), start, r, k, takes) && start.ids == Run(ops).ids
    ensures RoundRobin.Backlog(start.rings, Run(ops).ids[i]) == RING_USABLE
    ensures RoundRobin.Backlog(start.rings, Run(ops).ids[j]) == RING_USABLE
  {
    var reg := Run(ops);
    var x, y := reg.ids[i], reg.ids[j];
    RunConsistent(ops);
    var s1 := CallBegins(ops, x, y);
    start := Collection.Seen(s1);
    BeginTracks(s1);
    SeenTwo(s1, x, y);
    FairCalls.GivenByTwo(start.ids, start.rings, x, y, r, k);
    assert Arrives(Init(), reg, start, 0, 0);
    ArriveAnywhere(Init(), reg, start, r, k);
    s, takes :| Leads(Init(), s) && Tracks(s, reg, start, r, k, takes);
  }

  /** Then some run is unfair to them. */
  lemma UnfairRun(ops: seq<Op>, i: nat, j: nat, r: nat, k: nat) returns (run: seq<Label>)
    requires TwoApart(Run(ops), i, j, r, k)
    ensures Unfair(run, Run(ops))
  {
    var s, start, takes := UnfairState(ops, i, j, r, k);
    run :| Legal(Init(), run) && Exec(Init(), run) == s;
    Roles.InitRoles();
    Fairness.RunCall(Init(), run);
    UnevenAt(s, start, r, k, takes, i, j);
  }

  lemma UnevenAt(s: State, start: RoundRobin.View, r: nat, k: nat, takes: seq<nat>, i: nat, j: nat)
    requires Tracks(s, s.reg, start, r, k, takes) && Fairness.CallOk(s) && start.ids == s.reg.ids
    requires i < |s.reg.ids| && j < |s.reg.ids| && s.reg.ids[i] in s.reg.clients && s.reg.ids[j] in s.reg.clients
    requires var x, y := s.reg.ids[i], s.reg.ids[j];
             && k <= |s.reg.ids|
             && RoundRobin.Backlog(start.rings, x) == RoundRobin.Backlog(start.rings, y) == RING_USABLE
             && RoundRobin.Visits(s.reg.ids, r, k, y) + 1 < RoundRobin.Visits(s.reg.ids, r, k, x) < RING_USABLE
    ensures !Fairness.AllEvenly(s, s.reg.clients.Keys)
  {
    var x, y := s.reg.ids[i], s.reg.ids[j];
    assert Fairness.Took(s.log, x) == RoundRobin.Visits(s.reg.ids, r, k, x);
    assert Fairness.Took(s.log, y) == RoundRobin.Visits(s.reg.ids, r, k, y);
    assert !Fairness.Evenly(s.log, x, y);
  }

  // ----- Exactly when all runs are fair -----

  /** Somewhere in two rounds two registered ids are out of turn. */
  lemma UnevenPrefix(reg: Reg) returns (i: nat, j: nat, n: nat)
    requires !RoundRobin.EvenlyListed(reg.ids, reg.clients.Keys, RING_USABLE)
    ensures i < |reg.ids| && j < |reg.ids| && reg.ids[i] in reg.clients && reg.ids[j] in reg.clients
    ensures var list := reg.ids + reg.ids;
            && n <= |list|
            && RoundRobin.Occurs(list[..n], reg.ids[j]) + 1 < RoundRobin.Occurs(list[..n], reg.ids[i]) < RING_USABLE
  {
    var list := reg.ids + reg.ids;
    i, j :| 0 <= i < |reg.ids| && 0 <= j < |reg.ids| && reg.ids[i] in reg.clients && reg.ids[j] in reg.clients
            && !RoundRobin.InTurn(list, reg.ids[i], reg.ids[j], RING_USABLE);
    n :| 0 <= n <= |list| && !RoundRobin.InTurnAt(list, reg.ids[i], reg.ids[j], RING_USABLE, n);
  }

  lemma UnevenPoint(reg: Reg) returns (i: nat, j: nat, r: nat, k: nat)
    requires !RoundRobin.EvenlyListed(reg.ids, reg.clients.Keys, RING_USABLE)
    ensures TwoApart(reg, i, j, r, k)
  {
    var n;
    i, j, n := UnevenPrefix(reg);
    r, k := if n <= |reg.ids| then 0 else 1, if n <= |reg.ids| then n else n - |reg.ids|;
    RoundRobin.TwoRounds(reg.ids, r, k, reg.ids[i]);
    RoundRobin.TwoRounds(reg.ids, r, k, reg.ids[j]);
  }

  /** Whenever two registered ids do not come in turn, until the one has come as often
      as a ring has room, there is an unfair run. */
  lemma UnevenRun(ops: seq<Op>) returns (run: seq<Label>)
    requires !RoundRobin.EvenlyListed(Run(ops).ids, Run(ops).clients.Keys, RING_USABLE)
    ensures Unfair(run, Run(ops))
  {
    var i, j, r, k := UnevenPoint(Run(ops));
    run := UnfairRun(ops, i, j, r, k);
  }

  /** On every run with this registry every call is fair throughout. */
  ghost predicate AllRunsFair(reg: Reg) {
    forall run :: Legal(Init(), run) ==> !Unfair(run, reg)
  }

  /** No registered id is listed more often than a ring lets one see within two
      rounds. */
  predicate FewListings(reg: Reg) {
    forall i :: 0 <= i < |reg.ids| && reg.ids[i] in reg.clients ==>
      2 * RoundRobin.Occurs(reg.ids, reg.ids[i]) < RING_USABLE
  }

  lemma CapIsNone(reg: Reg)
    requires FewListings(reg) && RoundRobin.EvenlyListed(reg.ids, reg.clients.Keys, RING_USABLE)
    ensures Fairness.InTurn(reg)
  {
    var list := reg.ids + reg.ids;
    forall i, j | 0 <= i < |reg.ids| && 0 <= j < |reg.ids| && reg.ids[i] in reg.clients && reg.ids[j] in reg.clients
      ensures RoundRobin.InTurn(list, reg.ids[i], reg.ids[j], 2 * |reg.ids| + 1)
    {
      var x, y, cap := reg.ids[i], reg.ids[j], 2 * |reg.ids| + 1;
      forall k | 0 <= k <= |list|
        ensures RoundRobin.InTurnAt(list, x, y, cap, k)
      {
        assert RoundRobin.InTurnAt(list, x, y, RING_USABLE, k);
        RoundRobin.OccursAppend(reg.ids, reg.ids, x);
        RoundRobin.OccursAppend(list[..k], list[k..], x);
        assert list[..k] + list[k..] == list;
      }
    }
  }

  /** As long as no id is listed more than 255 times: all runs with a registry that adds
      and removals make are fair exactly when registered ids come in turn. */
  lemma FairRunsIff(ops: seq<Op>)
    requires FewListings(Run(ops))
    ensures AllRunsFair(Run(ops)) <==> Fairness.InTurn(Run(ops))
  {
    var reg := Run(ops);
    if Fairness.InTurn(reg) {
      forall run | Legal(Init(), run)
        ensures !Unfair(run, reg)
      {
        if Unfair(run, reg) {
          Fairness.FairWhenEven(run);
        }
      }
    } else {
      if RoundRobin.EvenlyListed(reg.ids, reg.clients.Keys, RING_USABLE) {
        CapIsNone(reg);
      }
      var run := UnevenRun(ops);
    }
  }

  lemma ListedIsVisited(ids: seq<nat>, first: seq<nat>)
    requires ids == first + [0] + [1] + [2] && Distinct(first) && |first| >= 2 && first[0] == 2 && first[1] == 3
    ensures RoundRobin.Visits(ids, 1, 1, 2) == 3 && RoundRobin.Visits(ids, 1, 1, 3) == 1
  {
    FairCalls.OccursAtMostOnce(first, 2);
    FairCalls.OccursAtMostOnce(first, 3);
    RoundRobin.OccursOne(first, 0);
    RoundRobin.OccursOne(first + [0], 1);
    RoundRobin.OccursOne(first + [0] + [1], 2);
    RoundRobin.VisitsClosed(ids, 1, 1, 2);
    RoundRobin.VisitsClosed(ids, 1, 1, 3);
    assert ids[..1] == [] + [2];
    RoundRobin.OccursOne([], 2);
  }

  lemma WrappedApart(n: nat)
    requires n == MAX_ADDS
    ensures TwoApart(Run(Adds(n + 3)), 0, 1, 1, 1)
  {
    ListedTwice(n);
    ListedIsVisited(Run(Adds(n + 3)).ids, Run(Adds(n)).ids);
  }

  /** After 65537 adds in a row client 2 is visited twice a round: a run exists that is
      unfair to client 3. */
  lemma WrappedUnfair(n: nat) returns (run: seq<Label>)
    requires n == MAX_ADDS
    ensures Unfair(run, Run(Adds(n + 3)))
  {
    WrappedApart(n);
    run := UnfairRun(Adds(n + 3), 0, 1, 1, 1);
  }
}
