/** Client ids, client channels and the names of their rings. */
module Registry {
  import Decimal
  import opened Machine

  const PACKETISER_ID: nat := 1

  datatype Dir = C2E | E2C

  /** The name a ring is created and looked up under. */
  function RingName(dir: Dir, id: nat): string {
    (if dir.C2E? then "C2E-" else "E2C-") + Decimal.Print(id)
  }

  /** The names in full: direction, dash and the client's number. */
  lemma NameText(id: nat)
    ensures RingName(C2E, id)[..4] == "C2E-" && RingName(E2C, id)[..4] == "E2C-"
    ensures RingName(C2E, id)[4..] == RingName(E2C, id)[4..] == Decimal.Print(id)
    ensures RingName(C2E, PACKETISER_ID) == "C2E-1" && RingName(E2C, PACKETISER_ID) == "E2C-1"
  {
    Decimal.PrintText(PACKETISER_ID);
    assert Decimal.Print(PACKETISER_ID) == "1";
  }

  /** A ring name determines its direction and its client. */
  lemma NameInjective(dir: Dir, id: nat, dir': Dir, id': nat)
    requires RingName(dir, id) == RingName(dir', id')
    ensures dir == dir' && id == id'
  {
    assert RingName(dir, id)[0] == RingName(dir', id')[0];
    assert RingName(dir, id)[4..] == Decimal.Print(id) && RingName(dir', id')[4..] == Decimal.Print(id');
    Decimal.PrintInjective(id, id');
  }

  datatype Channel = Channel(clientToEngine: string, engineToClient: string)

  function ChannelOf(id: nat): Channel {
    Channel(RingName(C2E, id), RingName(E2C, id))
  }

  function Names(ids: set<nat>): set<string> {
    (set id | id in ids :: RingName(C2E, id)) + (set id | id in ids :: RingName(E2C, id))
  }

  lemma NameListed(dir: Dir, id: nat, ids: set<nat>)
    ensures RingName(dir, id) in Names(ids) <==> id in ids
  {
    if RingName(dir, id) in Names(ids) {
      var j :| j in ids && (RingName(dir, id) == RingName(C2E, j) || RingName(dir, id) == RingName(E2C, j));
      if RingName(dir, id) == RingName(C2E, j) {
        NameInjective(dir, id, C2E, j);
      } else {
        NameInjective(dir, id, E2C, j);
      }
    }
  }

  /** The packetiser's bookkeeping: `LAST_ALLOCATED_ID`, `allocated_ids`, the
      client map, and the names registered with DPDK. */
  datatype Reg = Reg(last: nat, ids: seq<nat>, clients: map<nat, Channel>, rings: set<string>)

  /** The engine has created channel 1 for the packetiser; no client is known. */
  const INITIAL: Reg := Reg(PACKETISER_ID, [], map[], Names({PACKETISER_ID}))

  // ----- The two operations -----

  /** The scan of `add_client`: the first id below `last` that is not allocated,
      and 0 when there is none. */
  function Scan(ids: seq<nat>, from: nat, last: nat): nat
    decreases last - from
  {
    if from >= last then 0 else if from !in ids then from else Scan(ids, from + 1, last)
  }

  /** The id the next `add_client` picks; the u16 sum wraps. */
  function NextKey(r: Reg): nat {
    var key := Scan(r.ids, 0, r.last);
    if key == 0 then (r.last + 1) % U16_RANGE else key
  }

  /** `Channel::new`: the E2C ring is created first, each creation needs an unused
      name and memory, and a failing second creation frees the first ring. */
  predicate ChannelFits(rings: set<string>, id: nat, memE: bool, memC: bool) {
    && RingName(E2C, id) !in rings && memE
    && RingName(C2E, id) !in rings + {RingName(E2C, id)} && memC
  }

  function Added(r: Reg, memE: bool, memC: bool): Reg {
    var key := NextKey(r);
    var last := if Scan(r.ids, 0, r.last) == 0 then key else r.last;
    if ChannelFits(r.rings, key, memE, memC) then
      Reg(last, r.ids + [key], r.clients[key := ChannelOf(key)], r.rings + {RingName(E2C, key), RingName(C2E, key)})
    else
      Reg(last, r.ids + [key], r.clients, r.rings)
  }

  /** The position of the first occurrence of `key`, or the length. */
  function IndexOf(ids: seq<nat>, key: nat): (i: nat)
    ensures i <= |ids|
    ensures i < |ids| ==> ids[i] == key
    ensures forall j :: 0 <= j < i ==> ids[j] != key
    ensures key in ids <==> i < |ids|
  {
    if ids == [] || ids[0] == key then 0 else 1 + IndexOf(ids[1..], key)
  }

  lemma IndexNext(ids: seq<nat>, key: nat, i: nat)
    requires i < |ids| && ids[i] != key
    ensures IndexOf(ids[i..], key) == 1 + IndexOf(ids[i + 1..], key)
  {
    assert ids[i..][1..] == ids[i + 1..];
  }

  function Without(ids: seq<nat>, i: nat): seq<nat>
    requires i < |ids|
  {
    ids[..i] + ids[i + 1..]
  }

  /** `remove_clients` of an allocated id; of any other id it panics, which is
      shown as no change. Dropping the channel frees its rings. */
  function Removed(r: Reg, key: nat): Reg {
    if key !in r.ids then r
    else
      var freed := if key in r.clients then {r.clients[key].clientToEngine, r.clients[key].engineToClient} else {};
      Reg(r.last, Without(r.ids, IndexOf(r.ids, key)), r.clients - {key}, r.rings - freed)
  }

  // ----- In place -----

  class Packetiser {
    var last: nat
    var ids: seq<nat>
    var clients: map<nat, Channel>
    var rings: set<string>

    ghost function Value(): Reg
      reads this
    {
      Reg(last, ids, clients, rings)
    }

    constructor ()
      ensures Value() == INITIAL
    {
      last, ids, clients, rings := PACKETISER_ID, [], map[], Names({PACKETISER_ID});
    }

    /** `add_client`. A failed channel creation leaves the client map and the ring
        names as they were, but keeps the id allocated. */
    method AddClient(memE: bool, memC: bool) returns (ok: bool)
      modifies this
      ensures Value() == Added(old(Value()), memE, memC)
      ensures ok == ChannelFits(old(rings), NextKey(old(Value())), memE, memC)
      ensures !ok ==> clients == old(clients) && rings == old(rings) && NextKey(old(Value())) in ids
    {
      var key := 0;
      var id := 0;
      while id < last
        invariant key == 0 && id <= last
        invariant Scan(ids, 0, last) == Scan(ids, id, last)
      {
        if id !in ids {
          key := id;
          break;
        }
        id := id + 1;
      }
      assert key == Scan(ids, 0, last);
      if key == 0 {
        key := (last + 1) % U16_RANGE;
        last := key;
      }
      ids := ids + [key];
      var e2c, c2e := RingName(E2C, key), RingName(C2E, key);
      if e2c in rings || !memE {
        return false;
      }
      rings := rings + {e2c};
      if c2e in rings || !memC {
        rings := rings - {e2c};
        return false;
      }
      rings := rings + {c2e};
      clients := clients[key := Channel(c2e, e2c)];
      return true;
    }

    /** The search loop of `remove_clients`. */
    method Find(key: nat) returns (index: nat)
      ensures index == IndexOf(ids, key)
    {
      index := 0;
      assert ids[0..] == ids;
      while index < |ids| && ids[index] != key
        invariant index <= |ids|
        invariant IndexOf(ids, key) == index + IndexOf(ids[index..], key)
      {
        IndexNext(ids, key, index);
        index := index + 1;
      }
    }

    /** `remove_clients`; false stands for the out-of-range panic. */
    method RemoveClients(key: nat) returns (ok: bool)
      modifies this
      ensures ok == (key in old(ids))
      ensures Value() == Removed(old(Value()), key)
    {
      var index := Find(key);
      if index == |ids| {
        return false;
      }
      ids := ids[..index] + ids[index + 1..];
      if key in clients {
        rings := rings - {clients[key].clientToEngine, clients[key].engineToClient};
      }
      clients := clients - {key};
      return true;
    }
  }

  // ----- Runs -----

  datatype Op = Add(memE: bool, memC: bool) | Remove(key: nat)

  function Step(r: Reg, op: Op): Reg {
    match op
    case Add(memE, memC) => Added(r, memE, memC)
    case Remove(key) => Removed(r, key)
  }

  function Run(ops: seq<Op>): Reg {
    if ops == [] then INITIAL else Step(Run(ops[..|ops| - 1]), ops[|ops| - 1])
  }

  /** The ids picked by the adds of a run, in order. */
  function Keys(ops: seq<Op>): seq<nat> {
    if ops == [] then []
    else
      var before := ops[..|ops| - 1];
      Keys(before) + (if ops[|ops| - 1].Add? then [NextKey(Run(before))] else [])
  }

  /** Whether each add of a run succeeded, in order. */
  function Oks(ops: seq<Op>): (oks: seq<bool>)
    ensures |oks| == |Keys(ops)|
  {
    if ops == [] then []
    else
      var before := ops[..|ops| - 1];
      Oks(before) + (match ops[|ops| - 1]
                     case Add(memE, memC) => [ChannelFits(Run(before).rings, NextKey(Run(before)), memE, memC)]
                     case Remove(_) => [])
  }

  /** What holds on every run, even past the u16 bound: the registered names are
      exactly those of the packetiser's own channel and of the mapped clients,
      every client has its own channel, only allocated ids are mapped, and the
      packetiser's own id is never among them. */
  predicate Consistent(r: Reg) {
    && r.rings == Names(r.clients.Keys + {PACKETISER_ID})
    && PACKETISER_ID !in r.clients
    && (forall k :: k in r.clients ==> r.clients[k] == ChannelOf(k) && k in r.ids)
    && r.last < U16_RANGE
  }

  lemma AddConsistent(r: Reg, memE: bool, memC: bool)
    requires Consistent(r)
    ensures Consistent(Added(r, memE, memC))
  {
    var key := NextKey(r);
    var s := Added(r, memE, memC);
    assert forall k :: k in r.ids ==> k in r.ids + [key];
    ScanBound(r.ids, 0, r.last);
    if ChannelFits(r.rings, key, memE, memC) {
      NameListed(E2C, key, r.clients.Keys + {PACKETISER_ID});
      assert key in s.ids;
      assert s.clients.Keys == r.clients.Keys + {key};
      assert s.rings == Names(s.clients.Keys + {PACKETISER_ID});
    }
  }

  lemma {:induction false} ScanBound(ids: seq<nat>, from: nat, last: nat)
    ensures Scan(ids, from, last) == 0 || from <= Scan(ids, from, last) < last
    decreases last - from
  {
    if from < last && from in ids {
      ScanBound(ids, from + 1, last);
    }
  }

  lemma {:induction false} ScanFinds(ids: seq<nat>, from: nat, last: nat)
    requires from > 0
    ensures var key := Scan(ids, from, last);
            && (key != 0 ==> from <= key < last && key !in ids && forall j :: from <= j < key ==> j in ids)
            && (key == 0 ==> forall j :: from <= j < last ==> j in ids)
    decreases last - from
  {
    if from < last && from in ids {
      ScanFinds(ids, from + 1, last);
    }
  }

  /** Once 0 is taken, `add_client` reuses the least unallocated id below `last`; if
      there is none, or 0 is not taken, it counts up and wraps. */
  lemma PickedKey(r: Reg)
    ensures var key := NextKey(r);
            if 0 in r.ids && exists j :: 0 < j < r.last && j !in r.ids
            then 0 < key < r.last && key !in r.ids && forall j :: 0 < j < key ==> j in r.ids
            else key == (r.last + 1) % U16_RANGE
  {
    ScanFinds(r.ids, 1, r.last);
  }

  lemma RemoveConsistent(r: Reg, key: nat)
    requires Consistent(r)
    ensures Consistent(Removed(r, key))
  {
    if key in r.ids {
      var s := Removed(r, key);
      assert s.clients.Keys == r.clients.Keys - {key};
      RemoveKeepsOthers(r.ids, key);
      if key in r.clients {
        NamesMinus(r.clients.Keys + {PACKETISER_ID}, key);
        assert s.clients.Keys + {PACKETISER_ID} == (r.clients.Keys + {PACKETISER_ID}) - {key};
      } else {
        assert s.clients == r.clients;
      }
    }
  }

  lemma RemoveKeepsOthers(ids: seq<nat>, key: nat)
    requires key in ids
    ensures forall k :: k in ids && k != key ==> k in Without(ids, IndexOf(ids, key))
  {
    var i := IndexOf(ids, key);
    assert ids == ids[..i] + [key] + ids[i + 1..];
  }

  lemma NamesMinus(ids: set<nat>, key: nat)
    ensures Names(ids - {key}) == Names(ids) - {RingName(C2E, key), RingName(E2C, key)}
  {
    NameListed(C2E, key, ids - {key});
    NameListed(E2C, key, ids - {key});
    forall n | n in Names(ids) && n != RingName(C2E, key) && n != RingName(E2C, key)
      ensures n in Names(ids - {key})
    {
      var j :| j in ids && (n == RingName(C2E, j) || n == RingName(E2C, j));
      assert j in ids - {key};
    }
  }

  lemma {:induction false} RunConsistent(ops: seq<Op>)
    ensures Consistent(Run(ops))
  {
    if ops == [] {
      assert INITIAL.clients.Keys + {PACKETISER_ID} == {PACKETISER_ID};
    } else {
      RunConsistent(ops[..|ops| - 1]);
      match ops[|ops| - 1]
      case Add(memE, memC) => AddConsistent(Run(ops[..|ops| - 1]), memE, memC);
      case Remove(key) => RemoveConsistent(Run(ops[..|ops| - 1]), key);
    }
  }

  // ----- Ids are fresh up to the u16 bound -----

  /** The most adds that the u16 id can serve. */
  const MAX_ADDS: nat := U16_RANGE - 2

  predicate Distinct(ids: seq<nat>) {
    forall i, j :: 0 <= i < j < |ids| ==> ids[i] != ids[j]
  }

  /** While no id wrapped: the allocated ids are distinct and lie in 2 ..= last. */
  predicate FreshIds(r: Reg, adds: nat) {
    && r.last == adds + 1
    && Distinct(r.ids)
    && forall i :: 0 <= i < |r.ids| ==> 2 <= r.ids[i] <= r.last
  }

  lemma {:induction false} RunFresh(ops: seq<Op>)
    requires |Keys(ops)| <= MAX_ADDS
    ensures FreshIds(Run(ops), |Keys(ops)|)
    ensures forall i :: 0 <= i < |Keys(ops)| ==> Keys(ops)[i] == i + 2
  {
    if ops != [] {
      var before := ops[..|ops| - 1];
      RunFresh(before);
      match ops[|ops| - 1]
      case Add(memE, memC) => FreshKey(Run(before), |Keys(before)|);
      case Remove(key) => RemoveFresh(Run(before), |Keys(before)|, key);
    }
  }

  lemma FreshKey(r: Reg, adds: nat)
    requires FreshIds(r, adds) && adds <= MAX_ADDS
    ensures NextKey(r) == (adds + 2) % U16_RANGE && Scan(r.ids, 0, r.last) == 0
    ensures adds < MAX_ADDS ==> NextKey(r) == adds + 2 && NextKey(r) !in r.ids
    ensures adds < MAX_ADDS ==> forall memE, memC :: FreshIds(Added(r, memE, memC), adds + 1)
  {
    assert 0 !in r.ids;
  }

  lemma RemoveFresh(r: Reg, adds: nat, key: nat)
    requires FreshIds(r, adds)
    ensures FreshIds(Removed(r, key), adds)
  {}

  /** The scan always stops at 0, which is never allocated: the k-th add picks
      k + 1 whatever was removed. Exactly beyond 65534 adds this breaks: the
      65535th add picks 0. */
  lemma {:induction false} FreshIff(ops: seq<Op>)
    ensures (forall i :: 0 <= i < |Keys(ops)| ==> Keys(ops)[i] == i + 2) <==> |Keys(ops)| <= MAX_ADDS
    ensures |Keys(ops)| > MAX_ADDS ==> Keys(ops)[MAX_ADDS] == 0
  {
    if |Keys(ops)| <= MAX_ADDS {
      RunFresh(ops);
    } else {
      var before := ops[..|ops| - 1];
      FreshIff(before);
      if |Keys(before)| <= MAX_ADDS {
        RunFresh(before);
        FreshKey(Run(before), |Keys(before)|);
      }
      assert Keys(ops)[MAX_ADDS] == 0;
    }
  }

  /** Nothing but adds, all with memory. */
  function Adds(n: nat): (ops: seq<Op>)
    ensures |ops| == n
  {
    seq(n, _ => Add(true, true))
  }

  lemma {:induction false} KeysOfAdds(n: nat)
    ensures |Keys(Adds(n))| == n
  {
    if n > 0 {
      assert Adds(n)[..n - 1] == Adds(n - 1);
      KeysOfAdds(n - 1);
    }
  }

  /** 65535 clients one after the other: the last one gets id 0. */
  lemma WrappedRun()
    ensures |Keys(Adds(MAX_ADDS + 1))| == MAX_ADDS + 1 && Keys(Adds(MAX_ADDS + 1))[MAX_ADDS] == 0
  {
    KeysOfAdds(MAX_ADDS + 1);
    FreshIff(Adds(MAX_ADDS + 1));
  }

  /** Within the bound a fresh id never meets an existing ring name, so an add
      fails only for want of memory; so does the first one beyond it, with id 0. */
  lemma NoCollision(ops: seq<Op>, memE: bool, memC: bool)
    requires |Keys(ops)| <= MAX_ADDS
    ensures ChannelFits(Run(ops).rings, NextKey(Run(ops)), memE, memC) <==> memE && memC
  {
    var r := Run(ops);
    RunConsistent(ops);
    RunFresh(ops);
    FreshKey(r, |Keys(ops)|);
    NamesUnused(r, NextKey(r));
  }

  lemma NamesUnused(r: Reg, key: nat)
    requires Consistent(r) && key !in r.ids && key != PACKETISER_ID
    ensures RingName(E2C, key) !in r.rings
    ensures RingName(C2E, key) !in r.rings + {RingName(E2C, key)}
  {
    NameListed(E2C, key, r.clients.Keys + {PACKETISER_ID});
    NameListed(C2E, key, r.clients.Keys + {PACKETISER_ID});
    if RingName(C2E, key) == RingName(E2C, key) {
      NameInjective(C2E, key, E2C, key);
    }
  }

  // ----- Past the bound -----

  lemma AddsStep(n: nat)
    ensures Run(Adds(n + 1)) == Added(Run(Adds(n)), true, true)
  {
    assert Adds(n + 1)[..n] == Adds(n);
  }

  /** Every id from 2 on is listed, in order, and registered. */
  ghost predicate ListedInOrder(r: Reg, n: nat) {
    && FreshIds(r, n) && |r.ids| == n
    && (forall i :: 0 <= i < n ==> r.ids[i] == i + 2)
    && (forall k: nat :: k in r.clients <==> 2 <= k < n + 2)
  }

  lemma ListedNext(r: Reg, n: nat)
    requires ListedInOrder(r, n) && n < MAX_ADDS && ChannelFits(r.rings, NextKey(r), true, true)
    ensures ListedInOrder(Added(r, true, true), n + 1)
  {
    FreshKey(r, n);
  }

  lemma {:induction false} AddsInOrder(n: nat)
    requires n <= MAX_ADDS
    ensures ListedInOrder(Run(Adds(n)), n)
  {
    if n > 0 {
      AddsInOrder(n - 1);
      AddsStep(n - 1);
      KeysOfAdds(n - 1);
      NoCollision(Adds(n - 1), true, true);
      ListedNext(Run(Adds(n - 1)), n - 1);
    }
  }

  /** The 65535th add picks 0, which is free. */
  lemma AddsZero(r: Reg)
    requires ListedInOrder(r, MAX_ADDS) && ChannelFits(r.rings, NextKey(r), true, true)
    ensures var r' := Added(r, true, true);
            && r'.ids == r.ids + [0] && r'.last == 0
            && forall k: nat :: k in r'.clients <==> k < U16_RANGE && k != PACKETISER_ID
  {
    FreshKey(r, MAX_ADDS);
  }

  /** The next two pick 1 and 2, without looking whether they are allocated. */
  lemma AddsOne(r: Reg)
    requires r.last == 0
    ensures var r' := Added(r, true, true); r'.ids == r.ids + [1] && r'.last == 1
  {}

  lemma AddsTwo(r: Reg)
    requires r.last == 1 && 0 in r.ids
    ensures Added(r, true, true).ids == r.ids + [2]
  {
    assert Scan(r.ids, 0, 1) == Scan(r.ids, 1, 1) == 0;
  }

  lemma AddedKeeps(r: Reg)
    ensures r.clients.Keys <= Added(r, true, true).clients.Keys
  {}

  lemma AddsPast(n: nat)
    requires n == MAX_ADDS
    ensures var r := Run(Adds(n + 1));
            && r.ids == Run(Adds(n)).ids + [0] && r.last == 0
            && forall k: nat :: k in r.clients <==> k < U16_RANGE && k != PACKETISER_ID
  {
    AddsInOrder(n);
    KeysOfAdds(n);
    NoCollision(Adds(n), true, true);
    AddsStep(n);
    AddsZero(Run(Adds(n)));
  }

  /** After 65537 adds in a row id 2 is listed twice; it is still registered, like all
      other ids but 1. */
  lemma ListedTwice(n: nat)
    requires n == MAX_ADDS
    ensures ListedInOrder(Run(Adds(n)), n)
    ensures Run(Adds(n + 3)).ids == Run(Adds(n)).ids + [0] + [1] + [2]
    ensures 2 in Run(Adds(n + 3)).clients && 3 in Run(Adds(n + 3)).clients
  {
    AddsInOrder(n);
    AddsPast(n);
    AddsStep(n + 1);
    AddsOne(Run(Adds(n + 1)));
    AddsStep(n + 2);
    AddsTwo(Run(Adds(n + 2)));
    AddedKeeps(Run(Adds(n + 1)));
    AddedKeeps(Run(Adds(n + 2)));
  }

  /** Every ring name an id can ask for is taken. */
  ghost predicate Full(r: Reg) {
    r.last < U16_RANGE && forall k: nat :: k < U16_RANGE ==> RingName(E2C, k) in r.rings
  }

  lemma FullNext(r: Reg)
    requires Full(r)
    ensures Full(Added(r, true, true)) && !ChannelFits(r.rings, NextKey(r), true, true)
  {
    ScanBound(r.ids, 0, r.last);
    assert RingName(E2C, NextKey(r)) in r.rings;
  }

  lemma AllListed(r: Reg)
    requires Consistent(r) && forall k: nat :: k in r.clients <==> k < U16_RANGE && k != PACKETISER_ID
    ensures Full(r)
  {
    forall k: nat | k < U16_RANGE
      ensures RingName(E2C, k) in r.rings
    {
      NameListed(E2C, k, r.clients.Keys + {PACKETISER_ID});
    }
  }

  lemma {:induction false} AddsFull(n: nat)
    requires n > MAX_ADDS
    ensures Full(Run(Adds(n)))
  {
    if n == MAX_ADDS + 1 {
      AddsPast(n - 1);
      RunConsistent(Adds(n));
      AllListed(Run(Adds(n)));
    } else {
      AddsFull(n - 1);
      AddsStep(n - 1);
      FullNext(Run(Adds(n - 1)));
    }
  }

  /** With memory, a further add succeeds after every run of `n` adds, whatever was
      removed in between, exactly when `n` is at most 65534. */
  lemma NoCollisionIff(n: nat)
    ensures (forall ops :: |Keys(ops)| == n ==> ChannelFits(Run(ops).rings, NextKey(Run(ops)), true, true))
            <==> n <= MAX_ADDS
  {
    if n <= MAX_ADDS {
      forall ops | |Keys(ops)| == n
        ensures ChannelFits(Run(ops).rings, NextKey(Run(ops)), true, true)
      {
        NoCollision(ops, true, true);
      }
    } else {
      KeysOfAdds(n);
      AddsFull(n);
      FullNext(Run(Adds(n)));
    }
  }

  /** Within the bound the client map holds exactly the allocated ids whose own
      add succeeded. */
  lemma {:induction false} MapAgrees(ops: seq<Op>, k: nat)
    requires |Keys(ops)| <= MAX_ADDS
    ensures k in Run(ops).clients <==> k in Run(ops).ids && 2 <= k < |Oks(ops)| + 2 && Oks(ops)[k - 2]
  {
    RunFresh(ops);
    if ops != [] {
      var before := ops[..|ops| - 1];
      var r := Run(before);
      RunFresh(before);
      MapAgrees(before, k);
      match ops[|ops| - 1]
      case Add(memE, memC) =>
        assert k in Run(ops).ids <==> k in r.ids || k == NextKey(r);
      case Remove(key) =>
        if key in r.ids {
          RemoveOne(r.ids, key, k);
        }
    }
  }

  lemma RemoveOne(ids: seq<nat>, key: nat, k: nat)
    requires Distinct(ids) && key in ids
    ensures k in Without(ids, IndexOf(ids, key)) <==> k in ids && k != key
  {
    var i := IndexOf(ids, key);
    assert ids == ids[..i] + [key] + ids[i + 1..];
    assert key !in ids[..i] && key !in ids[i + 1..];
  }
}
