/** Single producer, single consumer: the discipline that the ring flags promise
    to DPDK. */
module Roles {
  import opened Registry
  import opened Dataplane

  /** The one process that may enqueue on a ring. On its own pair the packetiser
      plays the client and the engine plays the engine; on every other pair the
      packetiser plays the engine. */
  function Producer(dir: Dir, id: nat): Proc {
    if id == PACKETISER_ID then (if dir.E2C? then Engine else Packetiser)
    else if dir.E2C? then Packetiser else Client(id)
  }

  function Consumer(dir: Dir, id: nat): Proc {
    if id == PACKETISER_ID then (if dir.E2C? then Packetiser else Engine)
    else if dir.E2C? then Client(id) else Packetiser
  }

  predicate Produces(e: Event, ring: string) {
    (e.Enqueue? || e.BulkEnqueue?) && e.ring == ring
  }

  predicate Consumes(e: Event, ring: string) {
    e.Dequeue? && e.ring == ring
  }

  /** The event is on a ring of pair `id` and by the process in charge. */
  predicate InRole(e: Event, dir: Dir, id: nat) {
    match e
    case SendBegun => true
    case CollectBegun => true
    case FoundEmpty(_) => true
    case Enqueue(who, ring, _, _, _) => ring == RingName(dir, id) && who == Producer(dir, id)
    case BulkEnqueue(who, ring, _) => ring == RingName(dir, id) && who == Producer(dir, id)
    case Dequeue(who, ring, _) => ring == RingName(dir, id) && who == Consumer(dir, id)
    case RingFreed(ring, _) => ring == RingName(dir, id) && id != PACKETISER_ID
  }

  ghost predicate RoleKept(e: Event) {
    exists dir, id: nat :: InRole(e, dir, id)
  }

  /** All events so far kept their roles, and the client map is consistent: in
      particular it never holds the packetiser's own id. */
  ghost predicate RolesKept(s: State) {
    Consistent(s.reg) && forall i :: 0 <= i < |s.log| ==> RoleKept(s.log[i])
  }

  ghost predicate AllInRole(es: seq<Event>) {
    forall i :: 0 <= i < |es| ==> RoleKept(es[i])
  }

  lemma AllInRolePair(es: seq<Event>, dir: Dir, id: nat)
    requires forall i :: 0 <= i < |es| ==> InRole(es[i], dir, id)
    ensures AllInRole(es)
  {}

  lemma EngRoles(s: State, e: EngStep)
    requires EngEnabled(s, e)
    ensures AllInRole(EngEffect(s, e).events)
  {
    var es := EngEffect(s, e).events;
    AllInRolePair(es, if e.GetReceive? then C2E else E2C, PACKETISER_ID);
  }

  lemma PktRoles(s: State, p: PktStep)
    requires PktEnabled(s, p) && Consistent(s.reg)
    ensures AllInRole(PktEffect(s, p).events)
  {
    var es := PktEffect(s, p).events;
    match p
    case RecvDequeue => AllInRolePair(es, E2C, PACKETISER_ID);
    case SendOutNext => AllInRolePair(es, C2E, PACKETISER_ID);
    case BulkSend => AllInRolePair(es, C2E, PACKETISER_ID);
    case FwdNext(route) =>
      if route.Some? && route.value in s.reg.clients {
        AllInRolePair(es, E2C, route.value);
      }
    case OutReceive =>
      AllInRolePair(es, C2E, s.reg.ids[s.pkt.k]);
    case RemoveClient(key) =>
      if key in s.reg.clients && key in s.reg.ids {
        assert InRole(es[0], C2E, key) && InRole(es[1], E2C, key);
      }
    case _ => AllInRolePair(es, C2E, PACKETISER_ID);
  }

  lemma EnvRoles(s: State, v: EnvStep)
    requires EnvEnabled(s, v) && Consistent(s.reg)
    ensures AllInRole(EnvEffect(s, v).events)
  {
    var es := EnvEffect(s, v).events;
    match v
    case ClientSend(id) => AllInRolePair(es, C2E, id);
    case ClientReceive(id) => AllInRolePair(es, E2C, id);
    case _ =>
  }

  lemma StepKeepsRegistry(s: State, l: Label)
    requires Enabled(s, l) && Consistent(s.reg)
    ensures Consistent(EffectOf(s, l).reg)
  {
    StepReg(s, l);
    match l
    case Pkt(AddClient(memE, memC)) => AddConsistent(s.reg, memE, memC);
    case Pkt(RemoveClient(key)) => RemoveConsistent(s.reg, key);
    case _ =>
  }

  lemma StepInRole(s: State, l: Label)
    requires Enabled(s, l) && Consistent(s.reg)
    ensures AllInRole(EffectOf(s, l).events)
  {
    match l
    case Eng(e) => EngRoles(s, e);
    case Pkt(p) => PktRoles(s, p);
    case Env(v) => EnvRoles(s, v);
  }

  lemma StepKeepsRoles(s: State, l: Label)
    requires Enabled(s, l) && RolesKept(s)
    ensures RolesKept(Next(s, l))
  {
    StepKeepsRegistry(s, l);
    StepInRole(s, l);
  }

  lemma {:induction false} RunKeepsRoles(s: State, run: seq<Label>)
    requires Legal(s, run) && RolesKept(s)
    ensures RolesKept(Exec(s, run))
  {
    if run != [] {
      RunKeepsRoles(s, run[..|run| - 1]);
      StepKeepsRoles(Exec(s, run[..|run| - 1]), run[|run| - 1]);
    }
  }

  lemma InitRoles()
    ensures RolesKept(Init())
  {
    RunConsistent([]);
  }

  /** On every run, ids that wrapped around included, all enqueues on a ring come
      from one process and all dequeues from one process, and these two differ. */
  lemma {:induction false} SingleProducerSingleConsumer(run: seq<Label>, ring: string)
    requires Legal(Init(), run)
    ensures var log := Exec(Init(), run).log;
            && (forall i, j :: 0 <= i < |log| && 0 <= j < |log| && Produces(log[i], ring) && Produces(log[j], ring)
                               ==> log[i].who == log[j].who)
            && (forall i, j :: 0 <= i < |log| && 0 <= j < |log| && Consumes(log[i], ring) && Consumes(log[j], ring)
                               ==> log[i].who == log[j].who)
            && (forall i, j :: 0 <= i < |log| && 0 <= j < |log| && Produces(log[i], ring) && Consumes(log[j], ring)
                               ==> log[i].who != log[j].who)
  {
    InitRoles();
    RunKeepsRoles(Init(), run);
    var log := Exec(Init(), run).log;
    forall i, j | 0 <= i < |log| && 0 <= j < |log|
                  && (Produces(log[i], ring) || Consumes(log[i], ring))
                  && (Produces(log[j], ring) || Consumes(log[j], ring))
      ensures exists dir, id: nat :: InRole(log[i], dir, id) && InRole(log[j], dir, id)
    {
      SamePair(log[i], log[j], ring);
    }
  }

  lemma SamePair(e: Event, f: Event, ring: string)
    requires RoleKept(e) && RoleKept(f)
    requires (Produces(e, ring) || Consumes(e, ring)) && (Produces(f, ring) || Consumes(f, ring))
    ensures exists dir, id: nat :: InRole(e, dir, id) && InRole(f, dir, id)
  {
    var dir, id :| InRole(e, dir, id);
    var dir', id' :| InRole(f, dir', id');
    NameInjective(dir, id, dir', id');
  }
}
