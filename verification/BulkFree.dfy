/** Freeing many mbufs at once: `Mbuf::mbuf_free_bulk` and its crate-level copy. */
module BulkFree {

  /** A raw mbuf pointer and the pool recorded in the mbuf. */
  datatype Ptr = Ptr(addr: nat, pool: nat)

  /** One `rte_mempool_put_bulk` call. */
  datatype Put = Put(pool: nat, batch: seq<Ptr>)

  /** Everything the calls hand back, in order. */
  function Flatten(puts: seq<Put>): seq<Ptr> {
    if puts == [] then [] else Flatten(puts[..|puts| - 1]) + puts[|puts| - 1].batch
  }

  /** How many mbufs carry another pool than `pool`. */
  function Strangers(mbufs: seq<Ptr>, pool: nat): nat {
    if mbufs == [] then 0
    else Strangers(mbufs[..|mbufs| - 1], pool) + (if mbufs[|mbufs| - 1].pool == pool then 0 else 1)
  }

  lemma FlattenNext(puts: seq<Put>, put: Put)
    ensures Flatten(puts + [put]) == Flatten(puts) + put.batch
  {
    assert (puts + [put])[..|puts|] == puts;
  }

  lemma StrangersNext(mbufs: seq<Ptr>, i: nat, pool: nat)
    requires i < |mbufs|
    ensures Strangers(mbufs[..i + 1], pool) == Strangers(mbufs[..i], pool) + if mbufs[i].pool == pool then 0 else 1
    ensures mbufs[..i + 1] == mbufs[..i] + [mbufs[i]]
  {
    assert mbufs[..i + 1][..i] == mbufs[..i];
  }

  /** Every mbuf handed to a pool belongs to that pool. */
  predicate AllReturnHome(puts: seq<Put>) {
    forall i :: 0 <= i < |puts| ==> forall p :: p in puts[i].batch ==> p.pool == puts[i].pool
  }

  /** No call is empty and every call names `pool`. */
  predicate Batches(puts: seq<Put>, pool: nat) {
    forall i :: 0 <= i < |puts| ==> puts[i].batch != [] && puts[i].pool == pool
  }

  /** One call for every mbuf of another pool, and one more. */
  predicate OneMorePut(puts: seq<Put>, mbufs: seq<Ptr>, pool: nat) {
    |puts| == Strangers(mbufs, pool) + 1
  }

  /** The batching loop. Each mbuf is put back exactly once and in order, no call
      is empty, every call names the first mbuf's pool, and each mbuf of another
      pool forces one more call. */
  method FreeBatches(mbufs: seq<Ptr>) returns (puts: seq<Put>)
    requires mbufs != []
    ensures Flatten(puts) == mbufs && Batches(puts, mbufs[0].pool)
    ensures OneMorePut(puts, mbufs, mbufs[0].pool)
  {
    puts := [];
    var toFree: seq<Ptr> := [];
    var pool := mbufs[0].pool;
    for i := 0 to |mbufs|
      invariant Pending(puts, toFree, mbufs, i, pool)
    {
      PendingNext(puts, toFree, mbufs, i, pool);
      if pool != mbufs[i].pool {
        puts := puts + [Put(pool, toFree)];
        toFree := [];
      }
      toFree := toFree + [mbufs[i]];
    }
    LastPut(puts, toFree, mbufs, pool);
    puts := puts + [Put(pool, toFree)];
  }

  /** The first `i` mbufs are put back, but for the batch at hand. */
  predicate Pending(puts: seq<Put>, toFree: seq<Ptr>, mbufs: seq<Ptr>, i: nat, pool: nat) {
    && i <= |mbufs| && mbufs != [] && pool == mbufs[0].pool
    && Flatten(puts) + toFree == mbufs[..i] && Batches(puts, pool)
    && (i > 0 ==> toFree != []) && |puts| == Strangers(mbufs[..i], pool)
  }

  lemma PendingNext(puts: seq<Put>, toFree: seq<Ptr>, mbufs: seq<Ptr>, i: nat, pool: nat)
    requires Pending(puts, toFree, mbufs, i, pool) && i < |mbufs|
    ensures if mbufs[i].pool == pool then Pending(puts, toFree + [mbufs[i]], mbufs, i + 1, pool)
            else Pending(puts + [Put(pool, toFree)], [mbufs[i]], mbufs, i + 1, pool)
  {
    StrangersNext(mbufs, i, pool);
    FlattenNext(puts, Put(pool, toFree));
    assert Flatten(puts) + (toFree + [mbufs[i]]) == (Flatten(puts) + toFree) + [mbufs[i]];
  }

  lemma LastPut(puts: seq<Put>, toFree: seq<Ptr>, mbufs: seq<Ptr>, pool: nat)
    requires Pending(puts, toFree, mbufs, |mbufs|, pool)
    ensures var all := puts + [Put(pool, toFree)];
            Flatten(all) == mbufs && Batches(all, pool) && OneMorePut(all, mbufs, pool)
  {
    assert mbufs[..|mbufs|] == mbufs;
    FlattenNext(puts, Put(pool, toFree));
  }

  /** `Mbuf::mbuf_free_bulk`: the empty list is accepted and nothing is put. The
      crate-level copy asserts instead that the list is not empty. */
  method MbufFreeBulk(mbufs: seq<Ptr>) returns (puts: seq<Put>)
    ensures Flatten(puts) == mbufs
    ensures forall i :: 0 <= i < |puts| ==> puts[i].batch != []
    ensures AllReturnHome(puts) <==> forall p :: p in mbufs ==> p.pool == mbufs[0].pool
  {
    if mbufs == [] {
      return [];
    }
    puts := FreeBatches(mbufs);
    HomeIff(puts, mbufs[0].pool);
  }

  /** An mbuf is handed back in one of the calls. */
  ghost predicate InSomeBatch(puts: seq<Put>, p: Ptr) {
    exists i :: 0 <= i < |puts| && p in puts[i].batch
  }

  lemma OneBatchMore(puts: seq<Put>, put: Put, p: Ptr)
    ensures InSomeBatch(puts + [put], p) <==> InSomeBatch(puts, p) || p in put.batch
  {
    var all := puts + [put];
    if InSomeBatch(puts, p) {
      var i :| 0 <= i < |puts| && p in puts[i].batch;
      assert all[i] == puts[i];
    }
    if p in put.batch {
      assert all[|puts|] == put;
    }
  }

  lemma {:induction false} BatchMember(puts: seq<Put>, p: Ptr)
    ensures p in Flatten(puts) <==> InSomeBatch(puts, p)
  {
    if puts != [] {
      var before, put := puts[..|puts| - 1], puts[|puts| - 1];
      BatchMember(before, p);
      assert puts == before + [put];
      OneBatchMore(before, put, p);
    }
  }

  /** When all calls name one pool, the mbufs return home exactly when they all
      came from that pool. */
  lemma HomeIff(puts: seq<Put>, pool: nat)
    requires forall i :: 0 <= i < |puts| ==> puts[i].pool == pool
    ensures AllReturnHome(puts) <==> forall p :: p in Flatten(puts) ==> p.pool == pool
  {
    forall p: Ptr
      ensures p in Flatten(puts) <==> InSomeBatch(puts, p)
    {
      BatchMember(puts, p);
    }
  }
}
