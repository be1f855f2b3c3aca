/** When the calls of `store_outgoing` are fair, and how much they collect. */
module FairCalls {
  import opened Places
  import opened Registry
  import opened Dataplane
  import opened RoundRobin

  // ----- Distinct ids -----

  lemma {:induction false} OccursAtMostOnce(ids: seq<Id>, x: Id)
    requires Distinct(ids)
    ensures Occurs(ids, x) == if x in ids then 1 else 0
  {
    if ids != [] {
      var last := |ids| - 1;
      OccursAtMostOnce(ids[..last], x);
      assert ids == ids[..last] + [ids[last]];
    }
  }

  lemma AtMostTwice(ids: seq<Id>, k: nat, x: Id, y: Id)
    requires Distinct(ids) && x in ids && y in ids && k <= 2 * |ids|
    ensures Occurs((ids + ids)[..k], x) <= Occurs((ids + ids)[..k], y) + 1
  {
    var r, p := if k < |ids| then 0 else 1, if k < |ids| then k else k - |ids|;
    TwoRounds(ids, r, p, x);
    TwoRounds(ids, r, p, y);
    VisitsClosed(ids, r, p, x);
    VisitsClosed(ids, r, p, y);
    OccursAtMostOnce(ids, x);
    OccursAtMostOnce(ids, y);
    OccursAtMostOnce(ids[..p], x);
  }

  /** Distinct ids are evenly listed, whichever of them are registered. */
  lemma DistinctIsEven(ids: seq<Id>, keys: set<Id>, cap: nat)
    requires Distinct(ids)
    ensures EvenlyListed(ids, keys, cap)
  {
    forall i, j | 0 <= i < |ids| && 0 <= j < |ids|
      ensures InTurn(ids + ids, ids[i], ids[j], cap)
    {
      forall k | 0 <= k <= |ids + ids|
        ensures InTurnAt(ids + ids, ids[i], ids[j], cap, k)
      {
        AtMostTwice(ids, k, ids[i], ids[j]);
      }
    }
  }

  lemma {:induction false} OccursBound(xs: seq<Id>, x: Id)
    ensures Occurs(xs, x) <= |xs|
  {
    if xs != [] {
      OccursBound(xs[..|xs| - 1], x);
    }
  }

  /** A cap that two rounds cannot reach is none. */
  lemma AnyCap(ids: seq<Id>, x: Id, y: Id, cap: nat)
    requires InTurn(ids + ids, x, y, 2 * |ids| + 1)
    ensures InTurn(ids + ids, x, y, cap)
  {
    var list := ids + ids;
    forall k | 0 <= k <= |list|
      ensures InTurnAt(list, x, y, cap, k)
    {
      assert InTurnAt(list, x, y, 2 * |ids| + 1, k);
      OccursBound(list[..k], x);
    }
  }

  /** The sum, over the first `n` clients, of what `r` visits, and one more before
      position `k`, can take. */
  function SumOfVisits(ids: seq<Id>, rings: map<Id, seq<Buf>>, r: nat, k: nat, n: nat): nat
    requires n <= |ids|
  {
    if n == 0 then 0
    else
      var visits := r + if n - 1 < k then 1 else 0;
      SumOfVisits(ids, rings, r, k, n - 1) + Smaller(visits, Backlog(rings, ids[n - 1]))
  }

  lemma {:induction false} SumStep(ids: seq<Id>, rings: map<Id, seq<Buf>>, r: nat, k: nat, n: nat)
    requires k < |ids| && n <= |ids|
    ensures SumOfVisits(ids, rings, r, k + 1, n)
            == SumOfVisits(ids, rings, r, k, n) + if k < n && r < Backlog(rings, ids[k]) then 1 else 0
  {
    if n > 0 {
      SumStep(ids, rings, r, k, n - 1);
    }
  }

  lemma {:induction false} SumRound(ids: seq<Id>, rings: map<Id, seq<Buf>>, r: nat, n: nat)
    requires n <= |ids|
    ensures SumOfVisits(ids, rings, r, |ids|, n) == SumOfVisits(ids, rings, r + 1, 0, n)
  {
    if n > 0 {
      SumRound(ids, rings, r, n - 1);
    }
  }

  lemma {:induction false} SumOfNothing(ids: seq<Id>, rings: map<Id, seq<Buf>>, n: nat)
    requires n <= |ids|
    ensures SumOfVisits(ids, rings, 0, 0, n) == 0
  {
    if n > 0 {
      SumOfNothing(ids, rings, n - 1);
    }
  }

  lemma DistinctVisits(ids: seq<Id>, r: nat, k: nat)
    requires Distinct(ids) && k < |ids|
    ensures Visits(ids, r, k, ids[k]) == r
  {
    VisitsClosed(ids, r, k, ids[k]);
    OccursAtMostOnce(ids, ids[k]);
    OccursAtMostOnce(ids[..k], ids[k]);
  }

  /** For distinct ids the packets given are the sum, over the clients, of the smaller
      of visits and backlog. */
  lemma {:induction false} GivenIsSum(ids: seq<Id>, rings: map<Id, seq<Buf>>, r: nat, k: nat)
    requires Distinct(ids) && k <= |ids|
    ensures Given(ids, rings, r, k) == SumOfVisits(ids, rings, r, k, |ids|)
    decreases r, k
  {
    if k > 0 {
      GivenIsSum(ids, rings, r, k - 1);
      DistinctVisits(ids, r, k - 1);
      SumStep(ids, rings, r, k - 1, |ids|);
    } else if r > 0 {
      GivenIsSum(ids, rings, r - 1, |ids|);
      SumRound(ids, rings, r - 1, |ids|);
    } else {
      SumOfNothing(ids, rings, |ids|);
    }
  }

  /** Every registered client has given all it has, up to BURST_MAX packets. */
  predicate AllGiven(v: View, v': View) {
    && v'.rings.Keys == v.rings.Keys
    && forall x :: x in v.rings ==> v'.rings[x] == v.rings[x][Smaller(BURST_MAX, |v.rings[x]|)..]
  }

  /** With distinct ids, and more free buffers than BURST_MAX plus the sum of the
      smaller of BURST_MAX and the backlog, the call succeeds and collects that sum. */
  lemma AmpleOutgoing(v: View)
    requires v.aside == [] && Distinct(v.ids) && forall x :: x in v.rings ==> x in v.ids
    requires |v.free| > BURST_MAX + SumOfVisits(v.ids, v.rings, BURST_MAX, 0, |v.ids|)
    ensures var o := Outgoing(v); o.ok && AllGiven(v, o.view)
  {
    var o := Outgoing(v);
    OutgoingCollected(v);
    GivenIsSum(v.ids, v.rings, BURST_MAX, 0);
    forall x | x in v.rings
      ensures o.ok && o.view.rings[x] == v.rings[x][Smaller(BURST_MAX, |v.rings[x]|)..]
    {
      AmpleCall(v, o.view, o.takes, o.ok, x);
      OccursAtMostOnce(v.ids, x);
    }
    AmplePool(v.ids, v.rings, |v.free|);
  }

  // ----- Exactly when the calls are fair -----

  /** All the packets that wait. */
  ghost function Waiting(rings: map<Id, seq<Buf>>): nat {
    if rings == map[] then 0
    else
      var x :| x in rings;
      |rings[x]| + Waiting(rings - {x})
  }

  lemma {:induction false} WaitingWithout(rings: map<Id, seq<Buf>>, x: Id)
    requires x in rings
    ensures Waiting(rings) == |rings[x]| + Waiting(rings - {x})
    decreases rings
  {
    var y :| y in rings && Waiting(rings) == |rings[y]| + Waiting(rings - {y});
    if y != x {
      WaitingWithout(rings - {y}, x);
      WaitingWithout(rings - {x}, y);
      assert rings - {y} - {x} == rings - {x} - {y};
    }
  }

  lemma {:induction false} NothingWaits(rings: map<Id, seq<Buf>>)
    requires forall x :: x in rings ==> rings[x] == []
    ensures Waiting(rings) == 0
    decreases rings
  {
    if rings != map[] {
      var x :| x in rings;
      WaitingWithout(rings, x);
      NothingWaits(rings - {x});
    }
  }

  /** A view that can arise: no ring holds more than a ring can, and there are no more
      mbufs than the pool was made with. */
  ghost predicate Possible(v: View) {
    && v.aside == [] && Within(v.rings, RING_USABLE)
    && |v.free| + |v.outBuf| + |v.lost| + Waiting(v.rings) <= NUM_MBUFS
  }

  /** Every call with these ids is fair throughout, whatever waits and is free. */
  ghost predicate FairForAll(ids: seq<Id>, keys: set<Id>) {
    forall v: View :: v.ids == ids && v.rings.Keys == keys && Possible(v) ==>
      AlwaysFair(ids, v.rings, Outgoing(v).takes)
  }

  /** What was taken stays taken. */
  lemma {:induction false} TakesGrow(v: View, len: nat, r: nat, k: nat, takes: seq<Id>)
    ensures takes <= Collect(v, len, r, k, takes).takes
    decreases if r < len then len - r else 0, if k < |v.ids| then |v.ids| - k else 0
  {
    if r < len && v.ids != [] {
      if k >= |v.ids| {
        TakesGrow(v, len, r + 1, 0, takes);
      } else if v.free != [] {
        TakesGrow(Visited(v, k), len, r, k + 1, Takes(v, takes, k));
      }
    }
  }

  /** With buffers to spare the loops come to every point. */
  lemma {:induction false} Reaches(s: View, r: nat, k: nat) returns (v: View, takes: seq<Id>)
    requires |s.aside| == Rounds(|s.free| + |s.aside|) && s.ids != []
    requires r < |s.aside| && k <= |s.ids| && Given(s.ids, s.rings, r, k) < |s.free|
    ensures OnCourse(s, v, r, k, takes)
    ensures Collect(s, |s.aside|, 0, 0, []) == Collect(v, |s.aside|, r, k, takes)
    decreases r, k
  {
    if k > 0 {
      GivenMonotone(s.ids, s.rings, r, k - 1, r, k);
      var v0, takes0 := Reaches(s, r, k - 1);
      StepOfLoops(s, v0, r, k - 1, takes0);
      v, takes := Visited(v0, k - 1), Takes(v0, takes0, k - 1);
    } else if r > 0 {
      v, takes := Reaches(s, r - 1, |s.ids|);
      StepOfLoops(s, v, r - 1, |s.ids|, takes);
    } else {
      Started(s);
      v, takes := s, [];
    }
  }

  /** Only the clients `x` and `y` have packets. */
  predicate OnlyTwo(rings: map<Id, seq<Buf>>, x: Id, y: Id) {
    forall z :: z in rings && z != x && z != y ==> rings[z] == []
  }

  lemma {:induction false} GivenByTwo(ids: seq<Id>, rings: map<Id, seq<Buf>>, x: Id, y: Id, r: nat, k: nat)
    requires k <= |ids| && x != y && OnlyTwo(rings, x, y)
    ensures Given(ids, rings, r, k)
            == Smaller(Visits(ids, r, k, x), Backlog(rings, x)) + Smaller(Visits(ids, r, k, y), Backlog(rings, y))
    decreases r, k
  {
    if k > 0 {
      GivenByTwo(ids, rings, x, y, r, k - 1);
    } else if r > 0 {
      GivenByTwo(ids, rings, x, y, r - 1, |ids|);
    }
  }

  /** Two full rings, and buffers for two full rings. */
  const SPARE: nat := 2 * RING_USABLE + 1

  function TwoFull(ids: seq<Id>, keys: set<Id>, x: Id, y: Id): (v: View)
    requires x in keys && y in keys
    ensures v.ids == ids && v.rings.Keys == keys && v.aside == [] && v.outBuf == v.lost == []
    ensures |v.free| == BURST_MAX + SPARE && OnlyTwo(v.rings, x, y)
    ensures |v.rings[x]| == |v.rings[y]| == RING_USABLE
  {
    View(seq(BURST_MAX + SPARE, _ => 0), [], ids,
         map z | z in keys :: if z == x || z == y then seq(RING_USABLE, _ => 0) else [], [], [])
  }

  lemma TwoFullPossible(ids: seq<Id>, keys: set<Id>, x: Id, y: Id)
    requires x in keys && y in keys && x != y
    ensures Possible(TwoFull(ids, keys, x, y))
  {
    var rings := TwoFull(ids, keys, x, y).rings;
    WaitingWithout(rings, x);
    WaitingWithout(rings - {x}, y);
    NothingWaits(rings - {x} - {y});
  }

  /** What two clients have given at a point that the loops come to. */
  lemma CountsAt(s: View, r: nat, k: nat, x: Id, y: Id) returns (takes: seq<Id>)
    requires |s.aside| == Rounds(|s.free| + |s.aside|) && s.ids != []
    requires r < |s.aside| && k <= |s.ids| && Given(s.ids, s.rings, r, k) < |s.free|
    ensures takes <= Collect(s, |s.aside|, 0, 0, []).takes
    ensures Occurs(takes, x) == Smaller(Visits(s.ids, r, k, x), Backlog(s.rings, x))
    ensures Occurs(takes, y) == Smaller(Visits(s.ids, r, k, y), Backlog(s.rings, y))
  {
    var v;
    v, takes := Reaches(s, r, k);
    TakesGrow(v, |s.aside|, r, k, takes);
  }

  /** Two registered clients whose visits are two apart, before the first one's ring can
      be empty, make an unfair call. */
  lemma UnfairCall(ids: seq<Id>, keys: set<Id>, i: nat, j: nat, r: nat, k: nat)
    requires i < |ids| && j < |ids| && ids[i] in keys && ids[j] in keys && k <= |ids| && r <= 1
    requires Visits(ids, r, k, ids[j]) + 1 < Visits(ids, r, k, ids[i]) < RING_USABLE
    ensures !FairForAll(ids, keys)
  {
    var x, y := ids[i], ids[j];
    var whole := TwoFull(ids, keys, x, y);
    var s := whole.(free := whole.free[BURST_MAX..], aside := whole.free[..BURST_MAX]);
    TwoFullPossible(ids, keys, x, y);
    GivenByTwo(ids, s.rings, x, y, r, k);
    var takes := CountsAt(s, r, k, x, y);
    var all := Outgoing(whole).takes;
    assert all == Collect(s, |s.aside|, 0, 0, []).takes;
    assert all[..|takes|] == takes;
    assert !FairAt(ids, s.rings, all, |takes|);
  }

  lemma UnevenIsUnfair(ids: seq<Id>, keys: set<Id>, i: nat, j: nat)
    requires i < |ids| && j < |ids| && ids[i] in keys && ids[j] in keys
    requires !InTurn(ids + ids, ids[i], ids[j], RING_USABLE)
    ensures !FairForAll(ids, keys)
  {
    var list := ids + ids;
    var k :| 0 <= k <= |list| && !InTurnAt(list, ids[i], ids[j], RING_USABLE, k);
    var r, p := if k <= |ids| then 0 else 1, if k <= |ids| then k else k - |ids|;
    TwoRounds(ids, r, p, ids[i]);
    TwoRounds(ids, r, p, ids[j]);
    UnfairCall(ids, keys, i, j, r, p);
  }

  /** All calls are fair, at every point, exactly when in two rounds over the list any
      two registered ids come in turn, until the one has come as often as a ring has
      room. */
  lemma FairIff(ids: seq<Id>, keys: set<Id>)
    ensures FairForAll(ids, keys) <==> EvenlyListed(ids, keys, RING_USABLE)
  {
    if EvenlyListed(ids, keys, RING_USABLE) {
      forall v: View | v.ids == ids && v.rings.Keys == keys && Possible(v)
        ensures AlwaysFair(ids, v.rings, Outgoing(v).takes)
      {
        OutgoingCollected(v);
      }
    } else {
      var i, j :| 0 <= i < |ids| && 0 <= j < |ids| && ids[i] in keys && ids[j] in keys
                  && !InTurn(ids + ids, ids[i], ids[j], RING_USABLE);
      UnevenIsUnfair(ids, keys, i, j);
    }
  }
}
