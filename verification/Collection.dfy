/** `store_outgoing` run without interruption, as steps of the transition system. */
module Collection {
  import opened Places
  import opened Registry
  import opened Dataplane
  import opened Calls
  import PacketiserCalls
  import opened RoundRobin
  import FairCalls

  /** The mbufs in the ring a client sends on. */
  function Waiting(at: Store, reg: Reg, id: nat): seq<nat>
    requires id in reg.clients
  {
    Ids(Get(at, InRing(reg.clients[id].clientToEngine)))
  }

  /** What `store_outgoing` sees of a state. */
  function Seen(s: State): View {
    View(Ids(Get(s.at, Free)), Ids(Get(s.at, PktVec)), s.reg.ids,
         map id | id in s.reg.clients :: Waiting(s.at, s.reg, id),
         Ids(Get(s.at, OutBuf)), Ids(Get(s.at, Lost)))
  }

  lemma DistinctWays(r: Reg, id: nat, id': nat)
    requires Consistent(r) && id in r.clients && id' in r.clients
    requires r.clients[id].clientToEngine == r.clients[id'].clientToEngine
    ensures id == id'
  {
    NameInjective(C2E, id, C2E, id');
  }

  lemma IdsPop(ms: seq<Mbuf>)
    requires ms != []
    ensures Ids(ms[1..]) == Ids(ms)[1..] && Ids(ms)[0] == ms[0].id
  {}

  lemma IdsPush(ms: seq<Mbuf>, m: Mbuf)
    ensures Ids(ms + [m]) == Ids(ms) + [m.id]
  {}

  /** A placeholder is allocated. */
  ghost predicate Held(at: Store, at': Store) {
    && Get(at, Free) != []
    && Get(at', Free) == Get(at, Free)[1..]
    && Get(at', PktHeld) == [Mbuf(Get(at, Free)[0].id, Blank)]
    && Same(at, at', {Free, PktHeld})
  }

  /** The front of a ring is lost and the placeholder queued. */
  ghost predicate Swapped(at: Store, at': Store, ring: string) {
    && |Get(at, PktHeld)| == 1 && Used(at, ring) > 0
    && Get(at', PktHeld) == []
    && Get(at', OutBuf) == Get(at, OutBuf) + [Get(at, PktHeld)[0]]
    && Get(at', InRing(ring)) == Get(at, InRing(ring))[1..]
    && Get(at', Lost) == Get(at, Lost) + [Get(at, InRing(ring))[0]]
    && Same(at, at', {PktHeld, OutBuf, InRing(ring), Lost})
  }

  /** The placeholder is freed. */
  ghost predicate Returned(at: Store, at': Store) {
    && |Get(at, PktHeld)| == 1
    && Get(at', PktHeld) == []
    && Get(at', Free) == Get(at, Free) + [Get(at, PktHeld)[0]]
    && Same(at, at', {PktHeld, Free})
  }

  /** Taking from one ring leaves every other client's ring alone. */
  lemma OthersWait(at: Store, at': Store, r: Reg, id: nat)
    requires Consistent(r) && id in r.clients && Get(at, InRing(r.clients[id].clientToEngine)) != []
    requires Get(at', InRing(r.clients[id].clientToEngine)) == Get(at, InRing(r.clients[id].clientToEngine))[1..]
    requires forall name :: name != r.clients[id].clientToEngine ==> Get(at', InRing(name)) == Get(at, InRing(name))
    ensures forall x :: x in r.clients ==>
              Waiting(at', r, x) == if x == id then Waiting(at, r, x)[1..] else Waiting(at, r, x)
  {
    forall x | x in r.clients
      ensures Waiting(at', r, x) == if x == id then Waiting(at, r, x)[1..] else Waiting(at, r, x)
    {
      if x == id {
        IdsPop(Get(at, InRing(r.clients[id].clientToEngine)));
      } else if r.clients[x].clientToEngine == r.clients[id].clientToEngine {
        DistinctWays(r, x, id);
      }
    }
  }

  /** Both steps of a visit that takes a packet. */
  ghost predicate TookOne(at: Store, at': Store, ring: string) {
    && Get(at, Free) != [] && Used(at, ring) > 0
    && Get(at', Free) == Get(at, Free)[1..]
    && Get(at', PktVec) == Get(at, PktVec)
    && Get(at', OutBuf) == Get(at, OutBuf) + [Mbuf(Get(at, Free)[0].id, Blank)]
    && Get(at', InRing(ring)) == Get(at, InRing(ring))[1..]
    && Get(at', Lost) == Get(at, Lost) + [Get(at, InRing(ring))[0]]
    && forall name :: name != ring ==> Get(at', InRing(name)) == Get(at, InRing(name))
  }

  lemma BothSteps(at: Store, at1: Store, at2: Store, ring: string)
    requires Held(at, at1) && Swapped(at1, at2, ring)
    ensures TookOne(at, at2, ring)
  {}

  lemma SeenTaking(s: State, s2: State, k: nat)
    requires Consistent(s.reg) && k < |s.reg.ids| && s.reg.ids[k] in s.reg.clients && s2.reg == s.reg
    requires TookOne(s.at, s2.at, s.reg.clients[s.reg.ids[k]].clientToEngine)
    ensures Seen(s2) == Visited(Seen(s), k)
  {
    var id := s.reg.ids[k];
    var c := s.reg.clients[id].clientToEngine;
    IdsPop(Get(s.at, Free));
    IdsPop(Get(s.at, InRing(c)));
    IdsPush(Get(s.at, OutBuf), Mbuf(Get(s.at, Free)[0].id, Blank));
    IdsPush(Get(s.at, Lost), Get(s.at, InRing(c))[0]);
    OthersWait(s.at, s2.at, s.reg, id);
    assert Seen(s2).rings == Visited(Seen(s), k).rings;
  }

  lemma SeenReturning(s: State, s1: State, s2: State, k: nat)
    requires k < |s.reg.ids| && s1.reg == s.reg == s2.reg
    requires s.reg.ids[k] in s.reg.clients ==> Used(s.at, s.reg.clients[s.reg.ids[k]].clientToEngine) == 0
    requires Held(s.at, s1.at) && Returned(s1.at, s2.at)
    ensures Seen(s2) == Visited(Seen(s), k)
  {
    IdsPop(Get(s.at, Free));
    IdsPush(Get(s1.at, Free), Get(s1.at, PktHeld)[0]);
    assert Seen(s2).rings == Seen(s).rings;
  }

  /** Does the visited client have a packet? */
  predicate Ready(s: State, k: nat)
    requires k < |s.reg.ids|
  {
    var id := s.reg.ids[k];
    id in s.reg.clients && Used(s.at, s.reg.clients[id].clientToEngine) > 0
  }

  lemma SwapStep(s: State)
    requires PktEnabled(s, OutReceive) && |Get(s.at, PktHeld)| == 1 && Ready(s, s.pkt.k)
    ensures Swapped(s.at, Next(s, Pkt(OutReceive)).at, s.reg.clients[s.reg.ids[s.pkt.k]].clientToEngine)
  {
    TwoPops(s.at, InRing(s.reg.clients[s.reg.ids[s.pkt.k]].clientToEngine), Lost, PktHeld, OutBuf);
  }

  lemma ReturnStep(s: State)
    requires PktEnabled(s, OutReceive) && |Get(s.at, PktHeld)| == 1 && !Ready(s, s.pkt.k)
    ensures Returned(s.at, Next(s, Pkt(OutReceive)).at)
  {
    PopPushStep(s, Pkt(OutReceive), PktHeld, Free);
  }

  // ----- The calls around the loops -----

  /** A ring that some client sends on. */
  ghost predicate SendsOn(reg: Reg, p: Place) {
    exists id :: id in reg.clients && p == InRing(reg.clients[id].clientToEngine)
  }

  /** Nothing else changed: not the registry, and no other place. */
  ghost predicate Elsewhere(s: State, s': State) {
    && s'.reg == s.reg
    && forall p :: p !in {Free, PktVec, PktHeld, OutBuf, Lost} && !SendsOn(s.reg, p) ==> Get(s'.at, p) == Get(s.at, p)
  }

  lemma VisitElsewhere(s: State, s1: State, s2: State, k: nat)
    requires k < |s.reg.ids| && s1.reg == s.reg == s2.reg && Held(s.at, s1.at)
    requires if Ready(s1, k) then Swapped(s1.at, s2.at, s.reg.clients[s.reg.ids[k]].clientToEngine)
             else Returned(s1.at, s2.at)
    ensures Elsewhere(s, s2)
  {}

  lemma ElsewhereStep(s: State, s1: State, s2: State)
    requires Elsewhere(s, s1) && Elsewhere(s1, s2)
    ensures Elsewhere(s, s2)
  {}

  /** Both steps of a visit, taken or not. */
  lemma VisitSeen(s: State, s1: State, s2: State, k: nat)
    requires Consistent(s.reg) && k < |s.reg.ids| && s1.reg == s.reg == s2.reg && Held(s.at, s1.at)
    requires if Ready(s1, k) then Swapped(s1.at, s2.at, s.reg.clients[s.reg.ids[k]].clientToEngine)
             else Returned(s1.at, s2.at)
    ensures Elsewhere(s, s2) && Get(s2.at, PktHeld) == [] && Seen(s2) == Visited(Seen(s), k)
  {
    VisitElsewhere(s, s1, s2, k);
    if Ready(s1, k) {
      BothSteps(s.at, s1.at, s2.at, s.reg.clients[s.reg.ids[k]].clientToEngine);
      SeenTaking(s, s2, k);
    } else {
      SeenReturning(s, s1, s2, k);
    }
  }

  /** Allocate the placeholder. */
  method Hold(node: Node)
    requires node.Valid() && PktEnabled(node.s, OutTake(0)) && node.s.pkt.round < node.s.pkt.len
    requires node.s.pkt.k < |node.s.reg.ids| && Get(node.s.at, Free) != [] && Get(node.s.at, PktHeld) == []
    modifies node
    ensures node.Valid() && node.Continues(old(node.run)) && node.s.reg == old(node.s.reg)
    ensures node.s.pkt == old(POutHeld(node.s.pkt.len, node.s.pkt.round, node.s.pkt.k))
    ensures Held(old(node.s.at), node.s.at)
  {
    node.AllocDo(Pkt(OutTake(0)), PktHeld);
  }

  /** Receive into it. */
  method Receive(node: Node)
    requires node.Valid() && PktEnabled(node.s, OutReceive) && |Get(node.s.at, PktHeld)| == 1
    modifies node
    ensures node.Valid() && node.Continues(old(node.run)) && node.s.reg == old(node.s.reg)
    ensures node.s.pkt == old(POut(node.s.pkt.len, node.s.pkt.round, node.s.pkt.k + 1))
    ensures var s := old(node.s);
            if Ready(s, s.pkt.k) then Swapped(s.at, node.s.at, s.reg.clients[s.reg.ids[s.pkt.k]].clientToEngine)
            else Returned(s.at, node.s.at)
  {
    if Ready(node.s, node.s.pkt.k) {
      SwapStep(node.s);
    } else {
      ReturnStep(node.s);
    }
    node.Do(Pkt(OutReceive));
  }

  /** The two steps of a visit. */
  method Visit(node: Node)
    requires node.Valid() && node.s.pkt.POut? && node.s.pkt.round < node.s.pkt.len && node.s.pkt.k < |node.s.reg.ids|
    requires Get(node.s.at, Free) != [] && Get(node.s.at, PktHeld) == [] && Consistent(node.s.reg)
    modifies node
    ensures node.Valid() && node.Continues(old(node.run))
    ensures node.s.pkt == old(POut(node.s.pkt.len, node.s.pkt.round, node.s.pkt.k + 1))
    ensures Elsewhere(old(node.s), node.s) && Get(node.s.at, PktHeld) == []
    ensures Seen(node.s) == Visited(old(Seen(node.s)), old(node.s.pkt.k))
  {
    ghost var s, k := node.s, node.s.pkt.k;
    Hold(node);
    ghost var s1 := node.s;
    Receive(node);
    VisitSeen(s, s1, node.s, k);
  }

  /** The call, begun in `was`, is in its loops, and what is left to do leads to
      `goal`. */
  ghost predicate Towards(was: State, now: State, takes: seq<nat>, goal: Outcome) {
    && Elsewhere(was, now) && Get(now.at, PktHeld) == [] && now.pkt.POut?
    && Collect(Seen(now), now.pkt.len, now.pkt.round, now.pkt.k, takes) == goal
  }

  /** Visit the next client, unless the pool is empty: then this is the goal. */
  method VisitNext(node: Node, ghost was: State, ghost takes: seq<nat>, ghost goal: Outcome)
    returns (ok: bool, ghost takes': seq<nat>)
    requires node.Valid() && Consistent(node.s.reg) && Towards(was, node.s, takes, goal)
    requires node.s.pkt.round < node.s.pkt.len && node.s.pkt.k < |node.s.reg.ids|
    modifies node
    ensures node.Valid() && node.Continues(old(node.run)) && Towards(was, node.s, takes', goal)
    ensures ok ==> node.s.pkt == POut(old(node.s.pkt.len), old(node.s.pkt.round), old(node.s.pkt.k) + 1)
    ensures !ok ==> node.s == old(node.s) && Get(node.s.at, Free) == [] && goal == Outcome(Seen(node.s), takes', false)
  {
    takes' := takes;
    if Get(node.s.at, Free) == [] {
      return false, takes;
    }
    ghost var s := node.s;
    takes' := Takes(Seen(s), takes, s.pkt.k);
    Visit(node);
    ElsewhereStep(was, s, node.s);
    ok := true;
  }

  method NewRound(node: Node)
    requires node.Valid() && node.s.pkt.POut? && node.s.pkt.round < node.s.pkt.len
    requires node.s.reg.ids != [] && node.s.pkt.k == |node.s.reg.ids|
    modifies node
    ensures node.Valid() && node.Continues(old(node.run))
    ensures node.s == old(node.s).(pkt := old(POut(node.s.pkt.len, node.s.pkt.round + 1, 0)), log := node.s.log)
  {
    node.Do(Pkt(OutTake(0)));
  }

  /** Leaving the loops, normally or because the pool is empty. */
  method Leave(node: Node)
    requires node.Valid() && node.s.pkt.POut?
    requires node.s.pkt.round >= node.s.pkt.len || node.s.reg.ids == []
             || (node.s.pkt.k < |node.s.reg.ids| && Get(node.s.at, Free) == [])
    modifies node
    ensures node.Valid() && node.Continues(old(node.run))
    ensures node.s.pkt.PDrop? && node.s.at == old(node.s.at) && node.s.reg == old(node.s.reg)
  {
    node.Do(Pkt(OutTake(0)));
  }

  /** One round over all clients; it stops early when the pool is empty. */
  method Round(node: Node, clients: nat, ghost was: State, ghost takes: seq<nat>, ghost goal: Outcome)
    returns (ok: bool, ghost takes': seq<nat>)
    requires node.Valid() && Consistent(node.s.reg) && Towards(was, node.s, takes, goal)
    requires node.s.pkt.round < node.s.pkt.len && node.s.pkt.k == 0 < clients == |node.s.reg.ids|
    modifies node
    ensures node.Valid() && node.Continues(old(node.run)) && Towards(was, node.s, takes', goal)
    ensures ok ==> node.s.pkt == POut(old(node.s.pkt.len), old(node.s.pkt.round) + 1, 0)
    ensures !ok ==> node.s.pkt.k < |node.s.reg.ids| && Get(node.s.at, Free) == []
                    && goal == Outcome(Seen(node.s), takes', false)
  {
    takes' := takes;
    for i := 0 to clients
      invariant node.Valid() && node.Continues(old(node.run)) && Towards(was, node.s, takes', goal)
      invariant node.s.reg == old(node.s.reg) && node.s.pkt == POut(old(node.s.pkt.len), old(node.s.pkt.round), i)
    {
      ok, takes' := VisitNext(node, was, takes', goal);
      if !ok {
        return;
      }
    }
    NewRound(node);
    ok := true;
  }

  /** All rounds. */
  method AllRounds(node: Node, ghost was: State, ghost goal: Outcome) returns (ok: bool)
    requires node.Valid() && Consistent(node.s.reg) && Towards(was, node.s, [], goal)
    requires node.s.pkt.round == node.s.pkt.k == 0
    modifies node
    ensures node.Valid() && node.Continues(old(node.run)) && node.s.pkt.PDrop? && Elsewhere(was, node.s)
    ensures Get(node.s.at, PktHeld) == [] && Seen(node.s) == goal.view && ok == goal.ok
  {
    var r, len, clients := 0, node.s.pkt.len, |node.s.reg.ids|;
    ghost var takes := [];
    while r < len && clients > 0
      invariant node.Valid() && node.Continues(old(node.run)) && Towards(was, node.s, takes, goal)
      invariant node.s.reg == old(node.s.reg) && node.s.pkt == POut(len, r, 0) && r <= len
    {
      ok, takes := Round(node, clients, was, takes, goal);
      if !ok {
        Leave(node);
        return;
      }
      r := r + 1;
    }
    Leave(node);
    ok := true;
  }

  /** Set one buffer aside. */
  method SetOneAside(node: Node)
    requires node.Valid() && node.s.pkt.POutAlloc? && node.s.pkt.done < BURST_MAX && Get(node.s.at, Free) != []
    modifies node
    ensures node.Valid() && node.Continues(old(node.run)) && node.s.reg == old(node.s.reg)
    ensures node.s.pkt == POutAlloc(old(node.s.pkt.done) + 1)
    ensures Get(node.s.at, Free) == old(Get(node.s.at, Free))[1..]
    ensures Get(node.s.at, PktVec) == old(Get(node.s.at, PktVec)) + [Mbuf(old(Get(node.s.at, Free))[0].id, Blank)]
    ensures Same(old(node.s.at), node.s.at, {Free, PktVec})
  {
    node.AllocDo(Pkt(OutAlloc(0)), PktVec);
  }

  /** Set up to BURST_MAX buffers aside. */
  method SetAside(node: Node)
    requires node.Valid() && node.s.pkt.PIdle? && Get(node.s.at, PktVec) == []
    modifies node
    ensures node.Valid() && node.Continues(old(node.run)) && node.s.reg == old(node.s.reg)
    ensures node.s.pkt == POut(Rounds(old(|Get(node.s.at, Free)|)), 0, 0)
    ensures PacketiserCalls.Reserved(old(node.s.at), node.s.at, Rounds(old(|Get(node.s.at, Free)|)))
  {
    ghost var was, n := node.s.at, 0;
    ghost var free := Get(was, Free);
    node.Do(Pkt(OutCall));
    while node.s.pkt.POutAlloc? && node.s.pkt.done < BURST_MAX && Get(node.s.at, Free) != []
      invariant node.Valid() && node.Continues(old(node.run)) && node.s.reg == old(node.s.reg)
      invariant node.s.pkt == POutAlloc(n) && n <= BURST_MAX && n <= |free|
      invariant Get(node.s.at, PktVec) == Placeholders(free, n) && Get(node.s.at, Free) == free[n..]
      invariant Same(was, node.s.at, {Free, PktVec})
      decreases |free| - n
    {
      OnePlaceholder(free, n);
      SetOneAside(node);
      n := n + 1;
    }
    node.Do(Pkt(OutAlloc(0)));
  }

  lemma SeenAside(s: State, s1: State, n: nat)
    requires PacketiserCalls.Reserved(s.at, s1.at, n) && s1.reg == s.reg && Get(s.at, PktVec) == []
    ensures Seen(s1) == Seen(s).(free := Seen(s1).free, aside := Seen(s1).aside)
    ensures Seen(s1).aside + Seen(s1).free == Seen(s).free && |Seen(s1).aside| == n
  {
    assert Seen(s1).rings == Seen(s).rings;
  }

  lemma SeenDropped(s: State, s1: State)
    requires PacketiserCalls.VecDropped(s.at, s1.at) && s1.reg == s.reg
    ensures Seen(s1) == Seen(s).(free := Seen(s).free + Seen(s).aside, aside := [])
  {
    assert Seen(s1).rings == Seen(s).rings;
    assert Seen(s1).free == Seen(s).free + Seen(s).aside;
  }

  lemma AsideElsewhere(s: State, s1: State, n: nat)
    requires PacketiserCalls.Reserved(s.at, s1.at, n) && s1.reg == s.reg
    ensures Elsewhere(s, s1)
  {}

  lemma DroppedElsewhere(s: State, s1: State, s2: State)
    requires Elsewhere(s, s1) && PacketiserCalls.VecDropped(s1.at, s2.at) && s2.reg == s1.reg
    ensures Elsewhere(s, s2)
  {}

  /** What the loops make of a view when buffers are set aside before them. */
  function Goal(v: View): Outcome {
    Collect(v, |v.aside|, 0, 0, [])
  }

  /** Setting aside, the loops and the final drop, one after the other. */
  lemma PhasesCollect(s0: State, s1: State, s2: State, s3: State, n: nat)
    requires Get(s0.at, PktVec) == [] && n == Rounds(|Get(s0.at, Free)|)
    requires PacketiserCalls.Reserved(s0.at, s1.at, n) && s1.reg == s0.reg
    requires Seen(s2) == Goal(Seen(s1)).view
    requires PacketiserCalls.VecDropped(s2.at, s3.at) && s3.reg == s2.reg
    ensures Outgoing(Seen(s0)) == Outcome(Seen(s3), Goal(Seen(s1)).takes, Goal(Seen(s1)).ok)
  {
    SeenAside(s0, s1, n);
    SeenDropped(s2, s3);
    assert Seen(s1) == Seen(s0).(free := Seen(s0).free[n..], aside := Seen(s0).free[..n]);
  }

  /** Set buffers aside, leading to `s1`, and go through the loops. */
  method SetAsideAndCollect(node: Node) returns (ok: bool, ghost s1: State)
    requires node.Valid() && node.s.pkt.PIdle? && Get(node.s.at, PktVec) == [] && Get(node.s.at, PktHeld) == []
    requires Consistent(node.s.reg)
    modifies node
    ensures node.Valid() && node.Continues(old(node.run)) && node.s.pkt.PDrop?
    ensures Elsewhere(old(node.s), node.s) && Get(node.s.at, PktHeld) == []
    ensures PacketiserCalls.Reserved(old(node.s.at), s1.at, Rounds(old(|Get(node.s.at, Free)|)))
    ensures s1.reg == old(node.s.reg) && Seen(node.s) == Goal(Seen(s1)).view && ok == Goal(Seen(s1)).ok
  {
    ghost var s0 := node.s;
    SetAside(node);
    s1 := node.s;
    AsideElsewhere(s0, s1, Rounds(|Get(s0.at, Free)|));
    ok := AllRounds(node, s0, Goal(Seen(s1)));
  }

  /** `store_outgoing`. */
  method StoreOutgoing(node: Node) returns (ok: bool, ghost takes: seq<nat>)
    requires node.Valid() && node.s.pkt.PIdle? && Get(node.s.at, PktVec) == [] && Get(node.s.at, PktHeld) == []
    requires Consistent(node.s.reg)
    modifies node
    ensures node.Valid() && node.Continues(old(node.run)) && node.s.pkt.PIdle?
    ensures Get(node.s.at, PktVec) == [] && Get(node.s.at, PktHeld) == []
    ensures Elsewhere(old(node.s), node.s)
    ensures Outcome(Seen(node.s), takes, ok) == Outgoing(old(Seen(node.s)))
    ensures Collected(old(Seen(node.s)), Seen(node.s), takes, ok)
  {
    ghost var s0, s1 := node.s, node.s;
    ok, s1 := SetAsideAndCollect(node);
    takes := Goal(Seen(s1)).takes;
    ghost var s2 := node.s;
    PacketiserCalls.DropVec(node);
    DroppedElsewhere(s0, s2, node.s);
    PhasesCollect(s0, s1, s2, node.s, Rounds(|Get(s0.at, Free)|));
    OutgoingCollected(Seen(s0));
  }

  /** `store_outgoing` with a client and between 1 and BURST_MAX free mbufs: it fails,
      takes nothing from any client and restores the pool. */
  method StoreOutgoingScarce(node: Node) returns (ok: bool)
    requires node.Valid() && node.s.pkt.PIdle? && Get(node.s.at, PktVec) == [] && Get(node.s.at, PktHeld) == []
    requires Consistent(node.s.reg)
    requires node.s.reg.ids != [] && 1 <= |Get(node.s.at, Free)| <= BURST_MAX
    modifies node
    ensures node.Valid() && node.Continues(old(node.run)) && node.s.pkt.PIdle?
    ensures !ok && Untaken(old(Seen(node.s)), Seen(node.s)) && Elsewhere(old(node.s), node.s)
    ensures multiset(Seen(node.s).free) == old(multiset(Seen(node.s).free))
  {
    ScarceOutgoing(Seen(node.s));
    ghost var takes;
    ok, takes := StoreOutgoing(node);
  }

  /** `store_outgoing` with distinct ids and more free mbufs than BURST_MAX plus the sum
      of the smaller of BURST_MAX and the backlog: it succeeds, and every registered
      client has given all it has, up to BURST_MAX packets. */
  method StoreOutgoingAmple(node: Node) returns (ok: bool)
    requires node.Valid() && node.s.pkt.PIdle? && Get(node.s.at, PktVec) == [] && Get(node.s.at, PktHeld) == []
    requires Consistent(node.s.reg) && Distinct(node.s.reg.ids)
    requires |Get(node.s.at, Free)| > BURST_MAX + FairCalls.SumOfVisits(
               node.s.reg.ids, Seen(node.s).rings, BURST_MAX, 0, |node.s.reg.ids|)
    modifies node
    ensures node.Valid() && node.Continues(old(node.run)) && node.s.pkt.PIdle?
    ensures ok && FairCalls.AllGiven(old(Seen(node.s)), Seen(node.s)) && Elsewhere(old(node.s), node.s)
  {
    FairCalls.AmpleOutgoing(Seen(node.s));
    ghost var takes;
    ok, takes := StoreOutgoing(node);
  }
}
