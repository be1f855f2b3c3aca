/** Where mbufs are, and moving them from place to place. */
module Places {

  const NUM_MBUFS: nat := 32767

  /** What an mbuf carries: no data (`data_len` 0, as an allocation leaves it, with
      whatever bytes were in the data room before), a frame received from the NIC, or
      what a client wrote. */
  datatype Packet = Blank | Frame(etherType: nat, body: nat) | Payload(client: nat, body: nat)

  datatype Mbuf = Mbuf(id: nat, pkt: Packet)

  datatype Place =
    | Free                  // the pool
    | Nic                   // receive descriptors and packets on their way out
    | RxVec                 // `pkts` in get_external_pkts
    | ToPacketiser          // TO_PACKETISER
    | SendPkt               // `pkt` in send_to_packetiser
    | FromPacketiser        // FROM_PACKETISER
    | GetVec                // `pkts` in get_from_packetiser
    | OutPkts               // OUT_PKTS
    | TxVec                 // `pkts` in send_pkts_out
    | PktVec                // `pkts` in the packetiser's methods
    | PktHeld               // a single `pkt` in the packetiser's methods
    | InBuf                 // i_bufqueue
    | OutBuf                // o_bufqueue
    | ClientVec(id: nat)    // mbufs a client process holds
    | InRing(name: string)  // a ring, by its registered name
    | Lost                  // no process and no structure points to it

  type Store = map<Place, seq<Mbuf>>

  function Get(at: Store, p: Place): seq<Mbuf> {
    if p in at then at[p] else []
  }

  function Ids(ms: seq<Mbuf>): (r: seq<nat>)
    ensures |r| == |ms|
  {
    seq(|ms|, i requires 0 <= i < |ms| => ms[i].id)
  }

  /** What happens to the contents of moved mbufs: nothing, an allocation resets
      their length, or the NIC or a client fills them. */
  datatype Content = Keep | Clear | Fill(pkts: seq<Packet>)

  function Refill(how: Content, ms: seq<Mbuf>): (r: seq<Mbuf>)
    requires how.Fill? ==> |how.pkts| == |ms|
    ensures |r| == |ms|
    ensures Ids(r) == Ids(ms)
  {
    var r := match how
             case Keep => ms
             case Clear => seq(|ms|, i requires 0 <= i < |ms| => Mbuf(ms[i].id, Blank))
             case Fill(pkts) => seq(|ms|, i requires 0 <= i < |ms| => Mbuf(ms[i].id, pkts[i]));
    assert forall i :: 0 <= i < |r| ==> r[i].id == ms[i].id;
    r
  }

  /** `Move` takes `count` mbufs out of one place, from index `first` on, and
      appends them to another. `Copy` leaves them where they were as well: two
      owners then believe they hold the same mbuf. */
  datatype Transfer =
    | Move(from: Place, first: nat, count: nat, to: Place, how: Content)
    | Copy(from: Place, count: nat, to: Place)

  predicate CanDo(at: Store, t: Transfer) {
    t.from != t.to &&
    match t
    case Move(from, first, count, _, how) =>
      first + count <= |Get(at, from)| && (how.Fill? ==> |how.pkts| == count)
    case Copy(from, count, _) => count <= |Get(at, from)|
  }

  function Do(at: Store, t: Transfer): Store
    requires CanDo(at, t)
  {
    var src, dst := Get(at, t.from), Get(at, t.to);
    match t
    case Move(from, first, count, to, how) =>
      at[from := src[..first] + src[first + count..]][to := dst + Refill(how, src[first..first + count])]
    case Copy(_, count, to) => at[to := dst + src[..count]]
  }

  predicate CanDoAll(at: Store, ts: seq<Transfer>)
    decreases |ts|
  {
    ts == [] || (CanDo(at, ts[0]) && CanDoAll(Do(at, ts[0]), ts[1..]))
  }

  function DoAll(at: Store, ts: seq<Transfer>): Store
    requires CanDoAll(at, ts)
    decreases |ts|
  {
    if ts == [] then at else DoAll(Do(at, ts[0]), ts[1..])
  }

  lemma DoOne(at: Store, t: Transfer)
    requires CanDo(at, t)
    ensures CanDoAll(at, [t]) && DoAll(at, [t]) == Do(at, t)
  {
    assert DoAll(Do(at, t), []) == Do(at, t);
  }

  lemma DoTwo(at: Store, t: Transfer, u: Transfer)
    requires CanDo(at, t) && CanDo(Do(at, t), u)
    ensures CanDoAll(at, [t, u]) && DoAll(at, [t, u]) == Do(Do(at, t), u)
  {
    DoOne(Do(at, t), u);
    assert [t, u][1..] == [u];
  }

  predicate Touches(t: Transfer, p: Place) {
    t.from == p || t.to == p
  }

  /** A place that no transfer names keeps its mbufs. */
  lemma {:induction false} Untouched(at: Store, ts: seq<Transfer>, p: Place)
    requires CanDoAll(at, ts)
    requires forall i :: 0 <= i < |ts| ==> !Touches(ts[i], p)
    ensures Get(DoAll(at, ts), p) == Get(at, p)
    decreases |ts|
  {
    if ts != [] {
      Untouched(Do(at, ts[0]), ts[1..], p);
    }
  }

  // ----- Exactly one place -----

  /** How many times mbuf `b` occurs in a list. */
  function IdCount(ms: seq<Mbuf>, b: nat): nat {
    multiset(Ids(ms))[b]
  }

  /** How many times mbuf `b` occurs at place `p`. */
  function Count(at: Store, p: Place, b: nat): nat {
    IdCount(Get(at, p), b)
  }

  /** Mbuf `b` occurs once, at `p`, and nowhere else. */
  ghost predicate Sole(at: Store, b: nat, p: Place) {
    && Count(at, p, b) == 1
    && forall q :: q != p ==> Count(at, q, b) == 0
  }

  /** An mbuf of the pool is in exactly one place; anything else is nowhere. */
  ghost predicate Placed(at: Store, b: nat) {
    if b < NUM_MBUFS then exists p :: Sole(at, b, p) else forall p :: Count(at, p, b) == 0
  }

  ghost predicate Partition(at: Store) {
    forall b: nat :: Placed(at, b)
  }

  /** How often `b` is among the mbufs a transfer takes. */
  function Share(at: Store, t: Transfer, b: nat): nat
    requires CanDo(at, t)
  {
    var src := Get(at, t.from);
    match t
    case Move(_, first, count, _, _) => IdCount(src[first..first + count], b)
    case Copy(_, count, _) => IdCount(src[..count], b)
  }

  lemma AppendCount(xs: seq<Mbuf>, ys: seq<Mbuf>, b: nat)
    ensures IdCount(xs + ys, b) == IdCount(xs, b) + IdCount(ys, b)
  {
    assert Ids(xs + ys) == Ids(xs) + Ids(ys);
  }

  lemma SameIds(xs: seq<Mbuf>, ys: seq<Mbuf>, b: nat)
    requires Ids(xs) == Ids(ys)
    ensures IdCount(xs, b) == IdCount(ys, b)
  {}

  lemma AppendRefilled(dst: seq<Mbuf>, how: Content, mid: seq<Mbuf>, b: nat)
    requires how.Fill? ==> |how.pkts| == |mid|
    ensures IdCount(dst + Refill(how, mid), b) == IdCount(dst, b) + IdCount(mid, b)
  {
    AppendCount(dst, Refill(how, mid), b);
    SameIds(Refill(how, mid), mid, b);
  }

  lemma SliceCount(src: seq<Mbuf>, i: nat, j: nat, b: nat)
    requires i <= j <= |src|
    ensures IdCount(src[..i] + src[j..], b) + IdCount(src[i..j], b) == IdCount(src, b)
  {
    assert src == src[..i] + (src[i..j] + src[j..]);
    AppendCount(src[..i], src[i..j] + src[j..], b);
    AppendCount(src[i..j], src[j..], b);
    AppendCount(src[..i], src[j..], b);
  }

  lemma SourceAfter(at: Store, t: Transfer)
    requires CanDo(at, t) && t.Move?
    ensures Get(Do(at, t), t.from) == Get(at, t.from)[..t.first] + Get(at, t.from)[t.first + t.count..]
  {}

  lemma TargetAfter(at: Store, t: Transfer)
    requires CanDo(at, t) && t.Move?
    ensures Get(Do(at, t), t.to) == Get(at, t.to) + Refill(t.how, Get(at, t.from)[t.first..t.first + t.count])
  {}

  lemma Moved(at: Store, t: Transfer)
    requires CanDo(at, t) && t.Move?
    ensures var src, dst := Get(at, t.from), Get(at, t.to);
            && Get(Do(at, t), t.from) == src[..t.first] + src[t.first + t.count..]
            && Get(Do(at, t), t.to) == dst + Refill(t.how, src[t.first..t.first + t.count])
    ensures forall q :: q != t.from && q != t.to ==> Get(Do(at, t), q) == Get(at, q)
  {}

  /** Moving the front mbuf is a pop and a push. */
  lemma PopPush(at: Store, from: Place, to: Place)
    requires from != to && Get(at, from) != []
    ensures var t := Move(from, 0, 1, to, Keep);
            && CanDoAll(at, [t])
            && Get(DoAll(at, [t]), from) == Get(at, from)[1..]
            && Get(DoAll(at, [t]), to) == Get(at, to) + [Get(at, from)[0]]
            && forall q :: q != from && q != to ==> Get(DoAll(at, [t]), q) == Get(at, q)
  {
    var t := Move(from, 0, 1, to, Keep);
    DoOne(at, t);
    Moved(at, t);
    var src := Get(at, from);
    assert src[..0] + src[1..] == src[1..] && src[0..1] == [src[0]];
  }

  lemma MoveCounts(at: Store, t: Transfer, b: nat)
    requires CanDo(at, t) && t.Move?
    ensures Count(Do(at, t), t.from, b) + Share(at, t, b) == Count(at, t.from, b)
    ensures Count(Do(at, t), t.to, b) == Count(at, t.to, b) + Share(at, t, b)
    ensures forall q :: q != t.from && q != t.to ==> Count(Do(at, t), q, b) == Count(at, q, b)
  {
    SourceCount(at, t, b);
    TargetCount(at, t, b);
    forall q | q != t.from && q != t.to
      ensures Count(Do(at, t), q, b) == Count(at, q, b)
    {
      assert Get(Do(at, t), q) == Get(at, q);
    }
  }

  lemma ShareOfMove(at: Store, t: Transfer, b: nat)
    requires CanDo(at, t) && t.Move?
    ensures Share(at, t, b) == IdCount(Get(at, t.from)[t.first..t.first + t.count], b)
  {}

  lemma CountOf(at: Store, p: Place, ms: seq<Mbuf>, b: nat)
    requires Get(at, p) == ms
    ensures Count(at, p, b) == IdCount(ms, b)
  {}

  lemma SourceCount(at: Store, t: Transfer, b: nat)
    requires CanDo(at, t) && t.Move?
    ensures Count(Do(at, t), t.from, b) + Share(at, t, b) == Count(at, t.from, b)
  {
    var src, i, j := Get(at, t.from), t.first, t.first + t.count;
    SourceAfter(at, t);
    CountOf(Do(at, t), t.from, src[..i] + src[j..], b);
    CountOf(at, t.from, src, b);
    ShareOfMove(at, t, b);
    SliceCount(src, i, j, b);
  }

  lemma TargetCount(at: Store, t: Transfer, b: nat)
    requires CanDo(at, t) && t.Move?
    ensures Count(Do(at, t), t.to, b) == Count(at, t.to, b) + Share(at, t, b)
  {
    var mid, dst := Get(at, t.from)[t.first..t.first + t.count], Get(at, t.to);
    TargetAfter(at, t);
    CountOf(Do(at, t), t.to, dst + Refill(t.how, mid), b);
    CountOf(at, t.to, dst, b);
    ShareOfMove(at, t, b);
    AppendRefilled(dst, t.how, mid, b);
  }

  lemma CopyCounts(at: Store, t: Transfer, b: nat)
    requires CanDo(at, t) && t.Copy?
    ensures Count(Do(at, t), t.to, b) == Count(at, t.to, b) + Share(at, t, b)
    ensures forall q :: q != t.to ==> Count(Do(at, t), q, b) == Count(at, q, b)
    ensures Share(at, t, b) <= Count(at, t.from, b)
  {
    var src := Get(at, t.from);
    SliceCount(src, 0, t.count, b);
    AppendCount(Get(at, t.to), src[..t.count], b);
    assert src[0..t.count] == src[..t.count];
  }

  /** `share` occurrences of `b` went from one place to another. */
  ghost predicate Transferred(at: Store, at': Store, from: Place, to: Place, b: nat, share: nat) {
    && from != to
    && Count(at', from, b) + share == Count(at, from, b)
    && Count(at', to, b) == Count(at, to, b) + share
    && forall q :: q != from && q != to ==> Count(at', q, b) == Count(at, q, b)
  }

  lemma TransferPlaced(at: Store, at': Store, from: Place, to: Place, b: nat, share: nat)
    requires Transferred(at, at', from, to, b, share) && Placed(at, b)
    ensures Placed(at', b)
  {
    if b < NUM_MBUFS {
      var p :| Sole(at, b, p);
      TransferSole(at, at', from, to, b, share, p);
    } else {
      forall q
        ensures Count(at', q, b) == 0
      {
        assert Count(at, q, b) == 0;
      }
    }
  }

  lemma TransferSole(at: Store, at': Store, from: Place, to: Place, b: nat, share: nat, p: Place)
    requires Transferred(at, at', from, to, b, share) && Sole(at, b, p)
    ensures Sole(at', b, if share > 0 then to else p)
  {
    var f, g := (q: Place) => Count(at, q, b), (q: Place) => Count(at', q, b);
    OneMoves(f, g, from, to, share, p);
    var home := if share > 0 then to else p;
    assert g(home) == 1 && forall q :: q != home ==> g(q) == 0;
  }

  /** If all the weight is one unit at `p`, it stays there or moves with the share. */
  lemma OneMoves(f: Place -> nat, g: Place -> nat, from: Place, to: Place, share: nat, p: Place)
    requires from != to && g(from) + share == f(from) && g(to) == f(to) + share
    requires forall q :: q != from && q != to ==> g(q) == f(q)
    requires f(p) == 1 && forall q :: q != p ==> f(q) == 0
    ensures var home := if share > 0 then to else p;
            g(home) == 1 && forall q :: q != home ==> g(q) == 0
  {}

  lemma MovePlaced(at: Store, t: Transfer, b: nat)
    requires CanDo(at, t) && t.Move? && Placed(at, b)
    ensures Placed(Do(at, t), b)
  {
    MoveCounts(at, t, b);
    TransferPlaced(at, Do(at, t), t.from, t.to, b, Share(at, t, b));
  }

  /** A move keeps the partition, whatever it moves. */
  lemma MoveKeepsPartition(at: Store, t: Transfer)
    requires CanDo(at, t) && t.Move? && Partition(at)
    ensures Partition(Do(at, t))
  {
    forall b: nat
      ensures Placed(Do(at, t), b)
    {
      MovePlaced(at, t, b);
    }
  }

  lemma EmptyCopy(at: Store, t: Transfer, b: nat)
    requires CanDo(at, t) && t.Copy? && t.count == 0 && Placed(at, b)
    ensures Placed(Do(at, t), b)
  {
    CopyCounts(at, t, b);
    if b < NUM_MBUFS {
      var p :| Sole(at, b, p);
      assert Sole(Do(at, t), b, p);
    }
  }

  lemma CopiedTwice(at: Store, t: Transfer, b: nat)
    requires CanDo(at, t) && t.Copy? && Share(at, t, b) > 0 && Placed(at, b)
    ensures !Placed(Do(at, t), b)
  {
    CopyCounts(at, t, b);
    assert Count(Do(at, t), t.from, b) >= 1 && Count(Do(at, t), t.to, b) >= 1;
  }

  /** A copy keeps the partition only if it copies nothing. */
  lemma CopyKeepsPartitionIff(at: Store, t: Transfer)
    requires CanDo(at, t) && t.Copy? && Partition(at)
    ensures Partition(Do(at, t)) <==> t.count == 0
  {
    if t.count == 0 {
      forall b: nat
        ensures Placed(Do(at, t), b)
      {
        EmptyCopy(at, t, b);
      }
    } else {
      var ids := Ids(Get(at, t.from)[..t.count]);
      assert ids[0] in multiset(ids);
      CopiedTwice(at, t, ids[0]);
    }
  }

  lemma {:induction false} MovesKeepPartition(at: Store, ts: seq<Transfer>)
    requires CanDoAll(at, ts) && Partition(at)
    requires forall i :: 0 <= i < |ts| ==> ts[i].Copy? ==> ts[i].count == 0
    ensures Partition(DoAll(at, ts))
    decreases |ts|
  {
    if ts != [] {
      if ts[0].Copy? {
        CopyKeepsPartitionIff(at, ts[0]);
      } else {
        MoveKeepsPartition(at, ts[0]);
      }
      MovesKeepPartition(Do(at, ts[0]), ts[1..]);
    }
  }

  // ----- Counting -----

  function Below(n: nat): (r: set<nat>)
    ensures |r| == n && forall b: nat :: b in r <==> b < n
  {
    if n == 0 then {} else Below(n - 1) + {n - 1}
  }

  lemma Included(a: multiset<nat>, b: multiset<nat>)
    requires a <= b
    ensures |a| <= |b|
  {
    assert b == a + (b - a);
  }

  /** No place holds more mbufs than the pool has. */
  lemma PlaceBound(at: Store, p: Place)
    requires Partition(at)
    ensures |Get(at, p)| <= NUM_MBUFS
  {
    var held, all := multiset(Ids(Get(at, p))), multiset(Below(NUM_MBUFS));
    forall b: nat
      ensures held[b] <= all[b]
    {
      HeldOnce(at, p, b);
    }
    Included(held, all);
  }

  lemma HeldOnce(at: Store, p: Place, b: nat)
    requires Partition(at)
    ensures Count(at, p, b) <= if b < NUM_MBUFS then 1 else 0
  {
    assert Placed(at, b);
  }

  // ----- The initial store -----

  function PoolFrom(n: nat): (ms: seq<Mbuf>) {
    seq(n, i requires 0 <= i < n => Mbuf(i, Blank))
  }

  /** All mbufs are free. */
  function FullPool(): Store {
    map[Free := PoolFrom(NUM_MBUFS)]
  }

  lemma {:induction false} PoolCount(n: nat, b: nat)
    ensures multiset(Ids(PoolFrom(n)))[b] == if b < n then 1 else 0
  {
    if n > 0 {
      PoolCount(n - 1, b);
      assert Ids(PoolFrom(n)) == Ids(PoolFrom(n - 1)) + [n - 1];
    }
  }

  lemma FullPoolPartition()
    ensures Partition(FullPool())
  {
    var at := FullPool();
    forall b: nat
      ensures Placed(at, b)
    {
      PoolCount(NUM_MBUFS, b);
      assert forall p :: p != Free ==> Get(at, p) == [];
      assert b < NUM_MBUFS ==> Sole(at, b, Free);
    }
  }
}
