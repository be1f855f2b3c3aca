/** Clients come and go on a run: what becomes of their rings. */
module Clients {
  import opened Places
  import opened Registry
  import opened Dataplane
  import opened Calls
  import Roles

  /** A ring that is not registered holds nothing. */
  ghost predicate UnnamedEmpty(s: State) {
    forall ring :: ring !in s.reg.rings ==> Get(s.at, InRing(ring)) == []
  }

  // ----- add_client and remove_clients as whole calls -----

  /** Two rings are empty, and what they held is lost, that of the first one first;
      nothing else moved. */
  ghost predicate RingsDropped(at: Store, at': Store, c2e: string, e2c: string) {
    && Get(at', InRing(c2e)) == [] && Get(at', InRing(e2c)) == []
    && Get(at', Lost) == Get(at, Lost) + Get(at, InRing(c2e)) + Get(at, InRing(e2c))
    && Same(at, at', {InRing(c2e), InRing(e2c), Lost})
  }

  lemma RingEmptied(at: Store, ring: string)
    ensures var t := DequeueMove(ring, Used(at, ring));
            && CanDo(at, t) && Get(Do(at, t), InRing(ring)) == []
            && Get(Do(at, t), Lost) == Get(at, Lost) + Get(at, InRing(ring))
            && Same(at, Do(at, t), {InRing(ring), Lost})
  {
    var t := DequeueMove(ring, Used(at, ring));
    var held := Get(at, InRing(ring));
    Moved(at, t);
    assert held[..0] + held[|held|..] == [] && held[0..|held|] == held;
  }

  function DropBoth(at: Store, c2e: string, e2c: string): seq<Transfer> {
    [DequeueMove(c2e, Used(at, c2e)), DequeueMove(e2c, Used(at, e2c))]
  }

  lemma BothEmptied(at: Store, c2e: string, e2c: string)
    requires c2e != e2c
    ensures CanDoAll(at, DropBoth(at, c2e, e2c))
    ensures RingsDropped(at, DoAll(at, DropBoth(at, c2e, e2c)), c2e, e2c)
  {
    var t, u := DequeueMove(c2e, Used(at, c2e)), DequeueMove(e2c, Used(at, e2c));
    RingEmptied(at, c2e);
    var mid := Do(at, t);
    assert Get(mid, InRing(e2c)) == Get(at, InRing(e2c));
    RingEmptied(mid, e2c);
    DoTwo(at, t, u);
  }

  /** Dropping a channel whose rings have different names. */
  lemma DropStep(s: State, key: nat)
    requires s.pkt.PIdle? && key in s.reg.ids && key in s.reg.clients
    requires s.reg.clients[key].clientToEngine != s.reg.clients[key].engineToClient
    ensures RingsDropped(s.at, Next(s, Pkt(RemoveClient(key))).at,
                    s.reg.clients[key].clientToEngine, s.reg.clients[key].engineToClient)
  {
    BothEmptied(s.at, s.reg.clients[key].clientToEngine, s.reg.clients[key].engineToClient);
  }

  /** Removing a registered client drops the two rings that have its number. */
  lemma RemoveStep(s: State, key: nat)
    requires s.pkt.PIdle? && Consistent(s.reg) && key in s.reg.clients
    ensures RingsDropped(s.at, Next(s, Pkt(RemoveClient(key))).at, RingName(C2E, key), RingName(E2C, key))
  {
    if RingName(C2E, key) == RingName(E2C, key) {
      NameInjective(C2E, key, E2C, key);
    }
    assert s.reg.clients[key] == ChannelOf(key);
    DropStep(s, key);
  }

  /** `remove_clients`: a panic on an id that is not allocated; otherwise the id's
      first listing goes, and with a registered client both its rings and all that
      was in them. */
  method RemoveClients(node: Node, key: nat) returns (ok: bool)
    requires node.Valid() && node.s.pkt.PIdle? && Consistent(node.s.reg)
    modifies node
    ensures node.Valid() && node.Continues(old(node.run))
    ensures ok <==> key in old(node.s.reg.ids)
    ensures node.s.reg == Removed(old(node.s.reg), key) && node.s.pkt == if ok then PIdle else PHalted
    ensures key in old(node.s.reg.clients) ==>
              ok && RingsDropped(old(node.s.at), node.s.at, RingName(C2E, key), RingName(E2C, key))
    ensures key !in old(node.s.reg.clients) ==> node.s.at == old(node.s.at)
  {
    ok := key in node.s.reg.ids;
    if key in node.s.reg.clients {
      RemoveStep(node.s, key);
    }
    node.Do(Pkt(PktStep.RemoveClient(key)));
  }

  /** `add_client`: no mbuf moves, and a new channel starts with two empty rings. */
  method AddClient(node: Node, memE: bool, memC: bool) returns (ok: bool)
    requires node.Valid() && node.s.pkt.PIdle? && UnnamedEmpty(node.s)
    modifies node
    ensures node.Valid() && node.Continues(old(node.run)) && node.s.pkt.PIdle? && UnnamedEmpty(node.s)
    ensures node.s.at == old(node.s.at) && node.s.reg == Added(old(node.s.reg), memE, memC)
    ensures var key := NextKey(old(node.s.reg));
            && (ok <==> ChannelFits(old(node.s.reg.rings), key, memE, memC))
            && (ok ==> && key in node.s.reg.clients
                       && Get(node.s.at, InRing(RingName(C2E, key))) == []
                       && Get(node.s.at, InRing(RingName(E2C, key))) == [])
  {
    ok := ChannelFits(node.s.reg.rings, NextKey(node.s.reg), memE, memC);
    node.Do(Pkt(PktStep.AddClient(memE, memC)));
  }

  // ----- On every run -----

  /** Every mbuf that a step puts on a ring goes to a registered one. */
  predicate FillsNamed(ef: Effect, rings: set<string>) {
    forall i :: 0 <= i < |ef.transfers| && ef.transfers[i].to.InRing? ==> ef.transfers[i].to.name in rings
  }

  lemma OwnRingsNamed(r: Reg)
    requires Consistent(r)
    ensures TO_PKT in r.rings && TO_ENG in r.rings
    ensures forall id :: id in r.clients ==> r.clients[id].clientToEngine in r.rings
                                             && r.clients[id].engineToClient in r.rings
  {
    var ids := r.clients.Keys + {PACKETISER_ID};
    forall dir, id | id in ids
      ensures RingName(dir, id) in r.rings
    {
      NameListed(dir, id, ids);
    }
  }

  lemma EngFillsNamed(s: State, e: EngStep)
    requires EngEnabled(s, e) && TO_PKT in s.reg.rings
    ensures FillsNamed(EngEffect(s, e), s.reg.rings)
  {}

  lemma PktFillsNamed(s: State, p: PktStep)
    requires PktEnabled(s, p) && TO_ENG in s.reg.rings
    requires forall id :: id in s.reg.clients ==> s.reg.clients[id].engineToClient in s.reg.rings
    ensures FillsNamed(PktEffect(s, p), s.reg.rings)
  {}

  lemma EnvFillsNamed(s: State, v: EnvStep)
    requires EnvEnabled(s, v)
    requires forall id :: id in s.reg.clients ==> s.reg.clients[id].clientToEngine in s.reg.rings
    ensures FillsNamed(EnvEffect(s, v), s.reg.rings)
  {}

  lemma StepFillsNamed(s: State, l: Label)
    requires Enabled(s, l) && Consistent(s.reg)
    ensures FillsNamed(EffectOf(s, l), s.reg.rings)
  {
    OwnRingsNamed(s.reg);
    match l
    case Eng(e) => EngFillsNamed(s, e);
    case Pkt(p) => PktFillsNamed(s, p);
    case Env(v) => EnvFillsNamed(s, v);
  }

  lemma {:induction false} StaysEmpty(at: Store, ts: seq<Transfer>, p: Place)
    requires CanDoAll(at, ts) && Get(at, p) == []
    requires forall i :: 0 <= i < |ts| ==> ts[i].to != p
    ensures Get(DoAll(at, ts), p) == []
    decreases |ts|
  {
    if ts != [] {
      assert Get(Do(at, ts[0]), p) == [];
      StaysEmpty(Do(at, ts[0]), ts[1..], p);
    }
  }

  lemma StepUnnamed(s: State, l: Label)
    requires Enabled(s, l) && Consistent(s.reg) && UnnamedEmpty(s)
    ensures UnnamedEmpty(Next(s, l))
  {
    var s' := Next(s, l);
    StepFillsNamed(s, l);
    StepReg(s, l);
    CanStep(s, l);
    forall ring | ring !in s'.reg.rings
      ensures Get(s'.at, InRing(ring)) == []
    {
      if ring !in s.reg.rings {
        StaysEmpty(s.at, EffectOf(s, l).transfers, InRing(ring));
      } else {
        assert l.Pkt? && l.p.RemoveClient? && l.p.key in s.reg.clients;
        RemoveStep(s, l.p.key);
      }
    }
  }

  /** On every run a name that is not registered has no mbufs, so that whatever a
      client left behind when it was removed, a new channel starts empty. */
  lemma {:induction false} RunUnnamed(run: seq<Label>)
    requires Legal(Init(), run)
    ensures UnnamedEmpty(Exec(Init(), run))
  {
    if run == [] {
      assert forall ring :: Get(Init().at, InRing(ring)) == [];
    } else {
      var before := run[..|run| - 1];
      RunUnnamed(before);
      Roles.InitRoles();
      Roles.RunKeepsRoles(Init(), before);
      StepUnnamed(Exec(Init(), before), run[|run| - 1]);
    }
  }
}
