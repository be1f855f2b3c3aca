/** Where every mbuf is, on every run, and what exactly is lost. */
module Ownership {
  import opened Places
  import opened Dataplane
  import opened Machine

  // ----- Exactly one place -----

  /** A NIC send that takes all of its packets or none. */
  predicate AllOrNone(s: State, l: Label) {
    l.Eng? && l.e.TxSend? ==> l.e.count == 0 || l.e.count == |Get(s.at, TxVec)|
  }

  predicate AllOrNoneRun(s: State, run: seq<Label>)
    requires Legal(s, run)
  {
    run == [] ||
    (var before := run[..|run| - 1];
     AllOrNoneRun(s, before) && AllOrNone(Exec(s, before), run[|run| - 1]))
  }

  predicate NoCopy(ts: seq<Transfer>) {
    forall i :: 0 <= i < |ts| ==> ts[i].Copy? ==> ts[i].count == 0
  }

  lemma EngNoCopy(s: State, e: EngStep)
    requires EngEnabled(s, e) && AllOrNone(s, Eng(e))
    ensures NoCopy(EngEffect(s, e).transfers)
  {}

  lemma PktNoCopy(s: State, p: PktStep)
    requires PktEnabled(s, p)
    ensures NoCopy(PktEffect(s, p).transfers)
  {}

  lemma StepKeepsPartition(s: State, l: Label)
    requires Enabled(s, l) && Partition(s.at) && AllOrNone(s, l)
    ensures Partition(Next(s, l).at)
  {
    CanStep(s, l);
    StepNoCopy(s, l);
    MovesKeepPartition(s.at, EffectOf(s, l).transfers);
  }

  lemma StepNoCopy(s: State, l: Label)
    requires Enabled(s, l) && AllOrNone(s, l)
    ensures NoCopy(EffectOf(s, l).transfers)
  {
    match l
    case Eng(e) => EngNoCopy(s, e);
    case Pkt(p) => PktNoCopy(s, p);
    case Env(v) =>
  }

  /** On every run, from any state in which each of the 32767 mbufs is in exactly
      one place, it still is, as long as NIC sends take all or nothing. */
  lemma {:induction false} RunKeepsPartition(s: State, run: seq<Label>)
    requires Legal(s, run) && Partition(s.at) && AllOrNoneRun(s, run)
    ensures Partition(Exec(s, run).at)
  {
    if run != [] {
      RunKeepsPartition(s, run[..|run| - 1]);
      StepKeepsPartition(Exec(s, run[..|run| - 1]), run[|run| - 1]);
    }
  }

  /** A send keeps the partition exactly when the NIC takes all or nothing:
      otherwise what it took is both in its queue and free. */
  lemma SendKeepsPartitionIff(s: State, count: nat)
    requires Enabled(s, Eng(TxSend(count))) && Partition(s.at)
    ensures Partition(Next(s, Eng(TxSend(count))).at) <==> AllOrNone(s, Eng(TxSend(count)))
  {
    var n := |Get(s.at, TxVec)|;
    CanStep(s, Eng(TxSend(count)));
    if AllOrNone(s, Eng(TxSend(count))) {
      StepKeepsPartition(s, Eng(TxSend(count)));
    } else {
      var copy, free := Copy(TxVec, count, Nic), Move(TxVec, 0, n, Free, Keep);
      DoTwo(s.at, copy, free);
      var ids := Ids(Get(s.at, TxVec)[..count]);
      var b := ids[0];
      assert b in multiset(ids);
      SentAndFreed(s.at, copy, free, b);
    }
  }

  lemma SentAndFreed(at: Store, copy: Transfer, free: Transfer, b: nat)
    requires CanDo(at, copy) && copy.Copy? && Share(at, copy, b) > 0
    requires CanDo(Do(at, copy), free) && free.Move? && free.first == 0 && free.count == |Get(at, copy.from)|
    requires copy.from == free.from && copy.to != free.to
    ensures !Placed(Do(Do(at, copy), free), b)
  {
    var mid := Do(at, copy);
    CopyCounts(at, copy, b);
    MoveCounts(mid, free, b);
    AllShared(mid, free, b);
    TwoPlaces(Do(mid, free), copy.to, free.to, b);
  }

  lemma TwoPlaces(at: Store, p: Place, q: Place, b: nat)
    requires p != q && Count(at, p, b) > 0 && Count(at, q, b) > 0
    ensures !Placed(at, b)
  {}

  lemma AllShared(at: Store, t: Transfer, b: nat)
    requires CanDo(at, t) && t.Move? && t.first == 0 && t.count == |Get(at, t.from)|
    ensures Share(at, t, b) == Count(at, t.from, b)
  {
    assert Get(at, t.from)[0..t.count] == Get(at, t.from);
  }

  /** `ptrs.len() as u16` never truncates: no vector is longer than the pool. */
  lemma SendLengthFits(s: State)
    requires Partition(s.at)
    ensures |Get(s.at, TxVec)| % U16_RANGE == |Get(s.at, TxVec)|
  {
    PlaceBound(s.at, TxVec);
  }

  // ----- The ledger of losses -----

  /** What one event costs: an enqueue on a full ring, every dequeue, every mbuf
      given to a bulk enqueue, and whatever a freed ring held. */
  function Loss(e: Event): nat {
    match e
    case SendBegun => 0
    case CollectBegun => 0
    case FoundEmpty(_) => 0
    case Enqueue(_, _, _, _, ok) => if ok then 0 else 1
    case Dequeue(_, _, _) => 1
    case BulkEnqueue(_, _, count) => count
    case RingFreed(_, count) => count
  }

  function Losses(log: seq<Event>): nat {
    if log == [] then 0 else Losses(log[..|log| - 1]) + Loss(log[|log| - 1])
  }

  lemma {:induction false} LossesAppend(log: seq<Event>, es: seq<Event>)
    ensures Losses(log + es) == Losses(log) + Losses(es)
  {
    if es == [] {
      assert log + es == log;
    } else {
      assert (log + es)[..|log + es| - 1] == log + es[..|es| - 1];
      LossesAppend(log, es[..|es| - 1]);
    }
  }

  lemma {:induction false} DequeueLosses(es: seq<Event>)
    requires forall i :: 0 <= i < |es| ==> es[i].Dequeue?
    ensures Losses(es) == |es|
  {
    if es != [] {
      DequeueLosses(es[..|es| - 1]);
    }
  }

  /** How many mbufs a list of transfers sends to nowhere. */
  function Dropped(ts: seq<Transfer>): nat {
    if ts == [] then 0 else (if ts[0].to == Lost then ts[0].count else 0) + Dropped(ts[1..])
  }

  lemma {:induction false} LostGrows(at: Store, ts: seq<Transfer>)
    requires CanDoAll(at, ts)
    requires forall i :: 0 <= i < |ts| ==> ts[i].from != Lost
    ensures |Get(DoAll(at, ts), Lost)| == |Get(at, Lost)| + Dropped(ts)
    decreases |ts|
  {
    if ts != [] {
      LostGrows(Do(at, ts[0]), ts[1..]);
    }
  }

  lemma DroppedList(t: Transfer, u: Transfer)
    ensures Dropped([t]) == if t.to == Lost then t.count else 0
    ensures Dropped([t, u]) == Dropped([t]) + Dropped([u])
  {
    assert [t, u][1..] == [u] && [t][1..] == [];
  }

  lemma OneEvent(e: Event)
    ensures Losses([e]) == Loss(e)
  {
    assert Losses([e][..0]) == 0;
  }

  lemma TwoEvents(e: Event, f: Event)
    ensures Losses([e, f]) == Loss(e) + Loss(f)
  {
    assert [e, f][..1] == [e];
    OneEvent(e);
  }

  /** The transfers of a step lose what its events say. */
  predicate LossesMatch(ef: Effect) {
    Dropped(ef.transfers) == Losses(ef.events)
  }

  lemma SmallEffect(ef: Effect)
    ensures |ef.transfers| == 1 ==> Dropped(ef.transfers) == Dropped([ef.transfers[0]])
    ensures |ef.transfers| == 2 ==> Dropped(ef.transfers) == Dropped([ef.transfers[0]]) + Dropped([ef.transfers[1]])
    ensures |ef.events| == 1 ==> Losses(ef.events) == Loss(ef.events[0])
    ensures |ef.events| == 2 ==> Losses(ef.events) == Loss(ef.events[0]) + Loss(ef.events[1])
  {
    if |ef.transfers| == 1 {
      assert ef.transfers == [ef.transfers[0]];
    }
    if |ef.transfers| == 2 {
      DroppedList(ef.transfers[0], ef.transfers[1]);
      assert ef.transfers == [ef.transfers[0], ef.transfers[1]];
    }
    if |ef.events| == 1 {
      OneEvent(ef.events[0]);
      assert ef.events == [ef.events[0]];
    }
    if |ef.events| == 2 {
      TwoEvents(ef.events[0], ef.events[1]);
      assert ef.events == [ef.events[0], ef.events[1]];
    }
  }

  lemma EngLosses(s: State, e: EngStep)
    requires EngEnabled(s, e)
    ensures LossesMatch(EngEffect(s, e))
  {
    SmallEffect(EngEffect(s, e));
  }

  lemma FwdLosses(s: State, route: Option<nat>)
    requires s.pkt.PFwd?
    ensures LossesMatch(FwdEffect(s, route))
  {
    SmallEffect(FwdEffect(s, route));
  }

  lemma OutReceiveLosses(s: State)
    requires PktEnabled(s, OutReceive)
    ensures LossesMatch(OutReceiveEffect(s))
  {
    SmallEffect(OutReceiveEffect(s));
  }

  lemma RemoveLosses(s: State, key: nat)
    ensures LossesMatch(RemoveEffect(s, key))
  {
    SmallEffect(RemoveEffect(s, key));
  }

  lemma PktLosses(s: State, p: PktStep)
    requires PktEnabled(s, p)
    ensures LossesMatch(PktEffect(s, p))
  {
    match p
    case FwdNext(route) => FwdLosses(s, route);
    case OutReceive => OutReceiveLosses(s);
    case RemoveClient(key) => RemoveLosses(s, key);
    case RecvDequeue =>
      SmallEffect(PktEffect(s, p));
      DequeueLosses(PktEffect(s, p).events);
    case _ =>
      SmallEffect(PktEffect(s, p));
  }

  lemma EnvLosses(s: State, v: EnvStep)
    requires EnvEnabled(s, v)
    ensures LossesMatch(EnvEffect(s, v))
  {
    SmallEffect(EnvEffect(s, v));
  }

  lemma StepLosses(s: State, l: Label)
    requires Enabled(s, l)
    ensures |Get(Next(s, l).at, Lost)| - |Get(s.at, Lost)| == Losses(Next(s, l).log) - Losses(s.log)
  {
    CanStep(s, l);
    assert LossesMatch(EffectOf(s, l)) by {
      match l
      case Eng(e) => EngLosses(s, e);
      case Pkt(p) => PktLosses(s, p);
      case Env(v) => EnvLosses(s, v);
    }
    NothingComesBack(s, l);
    LostGrows(s.at, EffectOf(s, l).transfers);
    LossesAppend(s.log, EffectOf(s, l).events);
  }

  /** No step takes a lost mbuf. */
  predicate LeavesLost(ef: Effect) {
    forall i :: 0 <= i < |ef.transfers| ==> ef.transfers[i].from != Lost
  }

  lemma PktLeavesLost(s: State, p: PktStep)
    requires PktEnabled(s, p)
    ensures LeavesLost(PktEffect(s, p))
  {}

  lemma NothingComesBack(s: State, l: Label)
    requires Enabled(s, l)
    ensures LeavesLost(EffectOf(s, l))
  {
    if l.Pkt? {
      PktLeavesLost(s, l.p);
    }
  }

  /** On every run, partial NIC sends included, the mbufs lost are exactly the
      failed enqueues, the successful dequeues, the mbufs given to bulk enqueues
      and the contents of freed rings. */
  lemma {:induction false} RunLosses(s: State, run: seq<Label>)
    requires Legal(s, run)
    ensures |Get(Exec(s, run).at, Lost)| - |Get(s.at, Lost)| == Losses(Exec(s, run).log) - Losses(s.log)
  {
    if run != [] {
      RunLosses(s, run[..|run| - 1]);
      StepLosses(Exec(s, run[..|run| - 1]), run[|run| - 1]);
    }
  }

  /** From the initial state: the ledger is exact and bounded by the pool. However
      long a run, it dequeues, bulk-enqueues, frees in rings and loses on full
      rings no more than 32767 mbufs in all. */
  lemma {:induction false} Lifetime(run: seq<Label>)
    requires Legal(Init(), run) && AllOrNoneRun(Init(), run)
    ensures Partition(Exec(Init(), run).at)
    ensures |Get(Exec(Init(), run).at, Lost)| == Losses(Exec(Init(), run).log) <= NUM_MBUFS
  {
    FullPoolPartition();
    RunKeepsPartition(Init(), run);
    RunLosses(Init(), run);
    PlaceBound(Exec(Init(), run).at, Lost);
  }
}
