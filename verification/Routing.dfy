/** The routing table: two maps that are meant to mirror each other. */
module Routing {
  import Registry

  type Ip = nat
  type Id = nat

  datatype Table = Table(idOf: map<Ip, Id>, ipOf: map<Id, Ip>)

  datatype Op = Add(id: Id, ip: Ip) | RemoveById(id: Id) | RemoveByIp(ip: Ip)

  function Step(t: Table, op: Op): Table {
    match op
    case Add(id, ip) => Table(t.idOf[ip := id], t.ipOf[id := ip])
    case RemoveById(id) => t.(ipOf := t.ipOf - {id})
    case RemoveByIp(ip) => t.(idOf := t.idOf - {ip})
  }

  const EMPTY: Table := Table(map[], map[])

  function Run(ops: seq<Op>): Table {
    if ops == [] then EMPTY else Step(Run(ops[..|ops| - 1]), ops[|ops| - 1])
  }

  /** `id_from_ip`: 0 stands for "no route". */
  function Lookup(t: Table, ip: Ip): Id {
    if ip in t.idOf then t.idOf[ip] else 0
  }

  // ----- What a lookup answers, from the history alone -----

  /** Operation `i` is the latest add for `ip` and no removal of `ip` follows it. */
  predicate LatestAdd(ops: seq<Op>, ip: Ip, i: nat) {
    && i < |ops|
    && ops[i].Add? && ops[i].ip == ip
    && forall j :: i < j < |ops| ==> !(ops[j].Add? && ops[j].ip == ip) && ops[j] != RemoveByIp(ip)
  }

  /** After any history a lookup answers the id of the latest add for the address
      since its last removal, and 0 when there is none. Removals by id play no
      part. */
  lemma {:induction false} LookupFromHistory(ops: seq<Op>, ip: Ip)
    ensures forall i: nat :: LatestAdd(ops, ip, i) ==> ip in Run(ops).idOf && Run(ops).idOf[ip] == ops[i].id
    ensures (forall i: nat :: !LatestAdd(ops, ip, i)) ==> ip !in Run(ops).idOf && Lookup(Run(ops), ip) == 0
  {
    if ops != [] {
      var last := |ops| - 1;
      var before := ops[..last];
      LookupFromHistory(before, ip);
      if ops[last].Add? && ops[last].ip == ip {
        assert LatestAdd(ops, ip, last);
      } else if ops[last] != RemoveByIp(ip) {
        forall i: nat
          ensures LatestAdd(ops, ip, i) <==> LatestAdd(before, ip, i)
        {
          assert forall j :: 0 <= j < last ==> before[j] == ops[j];
        }
      }
    }
  }

  /** If every add used a non-zero id, as the allocator's ids are, the answer 0
      always means that there is no route. */
  lemma {:induction false} ZeroMeansNoRoute(ops: seq<Op>, ip: Ip)
    requires forall i :: 0 <= i < |ops| && ops[i].Add? ==> ops[i].id != 0
    ensures Lookup(Run(ops), ip) == 0 <==> ip !in Run(ops).idOf
  {
    if ops != [] {
      var before := ops[..|ops| - 1];
      assert forall i :: 0 <= i < |before| ==> before[i] == ops[i];
      ZeroMeansNoRoute(before, ip);
    }
  }

  // ----- The table and the id allocator -----

  /** Every add binds an id of `keys`. */
  predicate Binds(ops: seq<Op>, keys: seq<nat>) {
    forall i :: 0 <= i < |ops| && ops[i].Add? ==> ops[i].id in keys
  }

  /** Whatever is bound to those ids, the answer 0 means that there is no route. */
  ghost predicate ZeroIsClear(keys: seq<nat>) {
    forall ops, ip :: Binds(ops, keys) ==> (Lookup(Run(ops), ip) == 0 <==> ip !in Run(ops).idOf)
  }

  lemma BoundToZero(ip: Ip)
    ensures Lookup(Run([Add(0, ip)]), ip) == 0 && ip in Run([Add(0, ip)]).idOf
  {
    var ops := [Add(0, ip)];
    assert ops[..0] == [];
    assert Run(ops) == Step(EMPTY, Add(0, ip));
  }

  /** With the ids that a run of `add_client` and `remove_clients` has issued, the
      answer 0 means "no route" exactly as long as there were at most 65534 adds: the
      next one issues 0. */
  lemma IssuedIdsZeroIff(reg: seq<Registry.Op>)
    ensures ZeroIsClear(Registry.Keys(reg)) <==> |Registry.Keys(reg)| <= Registry.MAX_ADDS
  {
    var keys := Registry.Keys(reg);
    Registry.FreshIff(reg);
    if |keys| <= Registry.MAX_ADDS {
      forall ops, ip | Binds(ops, keys)
        ensures Lookup(Run(ops), ip) == 0 <==> ip !in Run(ops).idOf
      {
        ZeroMeansNoRoute(ops, ip);
      }
    } else {
      assert 0 in keys;
      BoundToZero(7);
      assert Binds([Add(0, 7)], keys);
    }
  }

  // ----- In place -----

  /** The static table shared by the packetiser's methods, with the operations it has
      seen. */
  class RoutingTable {
    var idOf: map<Ip, Id>
    var ipOf: map<Id, Ip>
    ghost var history: seq<Op>

    ghost function Value(): Table
      reads this
    {
      Table(idOf, ipOf)
    }

    ghost predicate Valid()
      reads this
    {
      Value() == Run(history)
    }

    constructor ()
      ensures Valid() && history == []
    {
      idOf, ipOf := map[], map[];
      history := [];
    }

    method AddClient(id: Id, ip: Ip)
      requires Valid()
      modifies this
      ensures Valid() && history == old(history) + [Add(id, ip)]
    {
      idOf := idOf[ip := id];
      ipOf := ipOf[id := ip];
      history := history + [Add(id, ip)];
    }

    method RemoveId(id: Id)
      requires Valid()
      modifies this
      ensures Valid() && history == old(history) + [RemoveById(id)]
    {
      ipOf := ipOf - {id};
      history := history + [RemoveById(id)];
    }

    method RemoveIp(ip: Ip)
      requires Valid()
      modifies this
      ensures Valid() && history == old(history) + [RemoveByIp(ip)]
    {
      idOf := idOf - {ip};
      history := history + [RemoveByIp(ip)];
    }

    /** The id of the latest add for `ip` since its last removal, or 0. */
    method IdFromIp(ip: Ip) returns (id: Id)
      requires Valid()
      ensures forall i: nat :: LatestAdd(history, ip, i) ==> id == history[i].id
      ensures (forall i: nat :: !LatestAdd(history, ip, i)) ==> id == 0
      ensures id == Lookup(Value(), ip)
    {
      LookupFromHistory(history, ip);
      id := if ip in idOf then idOf[ip] else 0;
    }
  }

  // ----- When the two maps mirror each other -----

  ghost predicate Mirror(t: Table) {
    forall ip, id :: (ip in t.idOf && t.idOf[ip] == id) <==> (id in t.ipOf && t.ipOf[id] == ip)
  }

  /** What a single operation must find so that it does not break the mirror. */
  predicate Safe(t: Table, op: Op) {
    match op
    case Add(id, ip) => (ip !in t.idOf && id !in t.ipOf) || (ip in t.idOf && t.idOf[ip] == id)
    case RemoveById(id) => id !in t.ipOf
    case RemoveByIp(ip) => ip !in t.idOf
  }

  /** From a mirrored table one operation leads to a mirrored table exactly when
      it is safe: an add must find both sides unbound or bound to each other, and
      a removal by one side alone must remove nothing. */
  lemma MirrorKeptIff(t: Table, op: Op)
    requires Mirror(t)
    ensures Mirror(Step(t, op)) <==> Safe(t, op)
  {
    var s := Step(t, op);
    match op
    case Add(id, ip) =>
      assert ip in s.idOf && s.idOf[ip] == id && id in s.ipOf && s.ipOf[id] == ip;
      if !Safe(t, op) {
        if ip in t.idOf {
          var other := t.idOf[ip];
          assert other in t.ipOf && t.ipOf[other] == ip;
          assert other in s.ipOf && s.ipOf[other] == ip && s.idOf[ip] != other;
        } else {
          var other := t.ipOf[id];
          assert other in t.idOf && t.idOf[other] == id;
          assert other in s.idOf && s.idOf[other] == id && s.ipOf[id] != other;
        }
      }
      if Safe(t, op) {
        forall i, a
          ensures (a in s.idOf && s.idOf[a] == i) <==> (i in s.ipOf && s.ipOf[i] == a)
        {
          assert (a in t.idOf && t.idOf[a] == i) <==> (i in t.ipOf && t.ipOf[i] == a);
          assert ip in t.idOf ==> id in t.ipOf && t.ipOf[id] == ip;
        }
      }
    case RemoveById(id) =>
      if id in t.ipOf {
        var ip := t.ipOf[id];
        assert ip in t.idOf && t.idOf[ip] == id;
        assert ip in s.idOf && s.idOf[ip] == id && id !in s.ipOf;
      } else {
        assert s == t;
      }
    case RemoveByIp(ip) =>
      if ip in t.idOf {
        var id := t.idOf[ip];
        assert id in t.ipOf && t.ipOf[id] == ip;
        assert id in s.ipOf && s.ipOf[id] == ip && ip !in s.idOf;
      } else {
        assert s == t;
      }
  }

  /** A client that leaves with `remove_by_id` alone leaves its address behind. */
  lemma MirrorBroken()
    ensures Mirror(Run([Add(2, 7)])) && !Mirror(Run([Add(2, 7), RemoveById(2)]))
    ensures Lookup(Run([Add(2, 7), RemoveById(2)]), 7) == 2
  {
    var t := Step(EMPTY, Add(2, 7));
    assert [Add(2, 7)][..0] == [] && [Add(2, 7), RemoveById(2)][..1] == [Add(2, 7)];
    assert Run([Add(2, 7)]) == t;
    assert Mirror(t);
    MirrorKeptIff(t, RemoveById(2));
  }

  /** A caller's request: bind an id and an address, or unbind a bound pair by
      both removals, in either order. */
  datatype Request = Bind(id: Id, ip: Ip) | Unbind(id: Id, ip: Ip, idFirst: bool)

  function Ops(q: Request): seq<Op> {
    match q
    case Bind(id, ip) => [Add(id, ip)]
    case Unbind(id, ip, idFirst) =>
      if idFirst then [RemoveById(id), RemoveByIp(ip)] else [RemoveByIp(ip), RemoveById(id)]
  }

  function AllOps(qs: seq<Request>): seq<Op> {
    if qs == [] then [] else AllOps(qs[..|qs| - 1]) + Ops(qs[|qs| - 1])
  }

  /** Binds use unbound ids and addresses; unbinds name a bound pair. */
  predicate Disciplined(qs: seq<Request>) {
    qs == [] ||
    (var before := qs[..|qs| - 1];
     var t := Run(AllOps(before));
     && Disciplined(before)
     && match qs[|qs| - 1]
        case Bind(id, ip) => ip !in t.idOf && id !in t.ipOf
        case Unbind(id, ip, _) => ip in t.idOf && t.idOf[ip] == id)
  }

  /** On every disciplined run the two maps mirror each other after each request. */
  lemma {:induction false} DisciplinedMirror(qs: seq<Request>)
    requires Disciplined(qs)
    ensures Mirror(Run(AllOps(qs)))
  {
    if qs != [] {
      var before := qs[..|qs| - 1];
      var t := Run(AllOps(before));
      DisciplinedMirror(before);
      RunAppend(AllOps(before), Ops(qs[|qs| - 1]));
      match qs[|qs| - 1]
      case Bind(id, ip) =>
        MirrorKeptIff(t, Add(id, ip));
      case Unbind(id, ip, idFirst) =>
        UnbindMirror(t, id, ip);
        var ops := Ops(qs[|qs| - 1]);
        assert RunFrom(t, ops) == RunFrom(Step(t, ops[0]), [ops[1]]);
        assert RunFrom(Step(t, ops[0]), [ops[1]]) == Step(Step(t, ops[0]), ops[1]);
    }
  }

  lemma UnbindMirror(t: Table, id: Id, ip: Ip)
    requires Mirror(t) && ip in t.idOf && t.idOf[ip] == id
    ensures Mirror(Table(t.idOf - {ip}, t.ipOf - {id}))
  {
    var s := Table(t.idOf - {ip}, t.ipOf - {id});
    forall a, i
      ensures (a in s.idOf && s.idOf[a] == i) <==> (i in s.ipOf && s.ipOf[i] == a)
    {
      assert (a in t.idOf && t.idOf[a] == i) <==> (i in t.ipOf && t.ipOf[i] == a);
      assert id in t.ipOf && t.ipOf[id] == ip;
    }
  }

  function RunFrom(t: Table, ops: seq<Op>): Table
    decreases |ops|
  {
    if ops == [] then t else RunFrom(Step(t, ops[0]), ops[1..])
  }

  lemma {:induction false} RunAppend(a: seq<Op>, b: seq<Op>)
    ensures Run(a + b) == RunFrom(Run(a), b)
    decreases |b|
  {
    if b == [] {
      assert a + b == a;
    } else {
      assert a + b == (a + [b[0]]) + b[1..];
      assert (a + [b[0]])[..|a|] == a;
      RunAppend(a + [b[0]], b[1..]);
    }
  }
}
