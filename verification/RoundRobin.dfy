/** `store_outgoing`: round-robin collection of packets from the clients, under a
    pool that may run dry. */
module RoundRobin {
  import opened Dataplane

  type Buf = nat
  type Id = nat

  /** How many packets wait in a client's ring; none if it is not registered. */
  function Backlog(rings: map<Id, seq<Buf>>, id: Id): nat {
    if id in rings then |rings[id]| else 0
  }

  /** How often `x` occurs in a sequence of ids. */
  function Occurs(xs: seq<Id>, x: Id): nat {
    if xs == [] then 0 else Occurs(xs[..|xs| - 1], x) + if xs[|xs| - 1] == x then 1 else 0
  }

  // ----- The schedule -----

  /** How often client `x` has been visited when round `r` has reached position `k` of
      the list; an id listed twice is visited twice a round. */
  function Visits(ids: seq<Id>, r: nat, k: nat, x: Id): nat
    requires k <= |ids|
    decreases r, k
  {
    if k > 0 then Visits(ids, r, k - 1, x) + if ids[k - 1] == x then 1 else 0
    else if r > 0 then Visits(ids, r - 1, |ids|, x)
    else 0
  }

  /** The packets given when round `r` has reached position `k`: every visit takes one
      while there is one. */
  function Given(ids: seq<Id>, rings: map<Id, seq<Buf>>, r: nat, k: nat): nat
    requires k <= |ids|
    decreases r, k
  {
    if k > 0 then
      var id := ids[k - 1];
      Given(ids, rings, r, k - 1) + if Visits(ids, r, k - 1, id) < Backlog(rings, id) then 1 else 0
    else if r > 0 then Given(ids, rings, r - 1, |ids|)
    else 0
  }

  /** No client that still has packets is two packets behind another such client. */
  predicate Fair(ids: seq<Id>, rings: map<Id, seq<Buf>>, takes: seq<Id>) {
    forall i, j :: 0 <= i < |ids| && 0 <= j < |ids|
                   && Occurs(takes, ids[i]) < Backlog(rings, ids[i])
                   && Occurs(takes, ids[j]) < Backlog(rings, ids[j])
                   ==> Occurs(takes, ids[i]) <= Occurs(takes, ids[j]) + 1
  }

  /** Fairness when `n` packets had been taken. */
  predicate FairAt(ids: seq<Id>, rings: map<Id, seq<Buf>>, takes: seq<Id>, n: int)
    requires 0 <= n <= |takes|
  {
    Fair(ids, rings, takes[..n])
  }

  /** Fairness at every point of the run so far. */
  predicate AlwaysFair(ids: seq<Id>, rings: map<Id, seq<Buf>>, takes: seq<Id>) {
    forall n :: 0 <= n <= |takes| ==> FairAt(ids, rings, takes, n)
  }

  /** The first `k` ids of the list do not hold `x` two times more than `y`, unless they
      hold `x` already `cap` times. */
  predicate InTurnAt(list: seq<Id>, x: Id, y: Id, cap: nat, k: int)
    requires 0 <= k <= |list|
  {
    Occurs(list[..k], x) <= Occurs(list[..k], y) + 1 || Occurs(list[..k], x) >= cap
  }

  predicate InTurn(list: seq<Id>, x: Id, y: Id, cap: nat) {
    forall k :: 0 <= k <= |list| ==> InTurnAt(list, x, y, cap, k)
  }

  /** In two rounds over the list any two registered ids come in turn. */
  predicate EvenlyListed(ids: seq<Id>, keys: set<Id>, cap: nat) {
    forall i, j :: 0 <= i < |ids| && 0 <= j < |ids| && ids[i] in keys && ids[j] in keys ==>
      InTurn(ids + ids, ids[i], ids[j], cap)
  }

  predicate Within(rings: map<Id, seq<Buf>>, cap: nat) {
    forall x :: x in rings ==> |rings[x]| <= cap
  }

  /** If registered ids come in turn, up to what a ring can hold, all is fair so far. */
  ghost predicate FairIfEven(ids: seq<Id>, rings: map<Id, seq<Buf>>, takes: seq<Id>) {
    forall cap: nat :: EvenlyListed(ids, rings.Keys, cap) && Within(rings, cap) ==> AlwaysFair(ids, rings, takes)
  }

  /** The buffers set aside first, which also fix the number of rounds. */
  function Rounds(free: nat): nat {
    Smaller(free, BURST_MAX)
  }

  /** The pool lasts: when the last client is visited in the last round, a free
      buffer is still left. With no client or no free buffer at all nothing is
      visited. */
  predicate PoolLasts(ids: seq<Id>, rings: map<Id, seq<Buf>>, free: nat) {
    var len := Rounds(free);
    ids == [] || len == 0 || Given(ids, rings, len - 1, |ids| - 1) < free - len
  }

  // ----- Arithmetic of the rounds -----

  lemma OccursOne(xs: seq<Id>, id: Id)
    ensures forall x :: Occurs(xs + [id], x) == Occurs(xs, x) + if x == id then 1 else 0
  {
    assert (xs + [id])[..|xs|] == xs;
  }

  lemma OccursPrefix(xs: seq<Id>, k: nat, x: Id)
    requires k < |xs|
    ensures Occurs(xs[..k + 1], x) == Occurs(xs[..k], x) + if xs[k] == x then 1 else 0
  {
    assert xs[..k + 1] == xs[..k] + [xs[k]];
    OccursOne(xs[..k], xs[k]);
  }

  lemma OneRoundMore(r: nat, m: nat)
    ensures (r + 1) * m == r * m + m
  {}

  /** A round visits every client as often as it is listed. */
  lemma {:induction false} VisitsClosed(ids: seq<Id>, r: nat, k: nat, x: Id)
    requires k <= |ids|
    ensures Visits(ids, r, k, x) == r * Occurs(ids, x) + Occurs(ids[..k], x)
    decreases r, k
  {
    if k > 0 {
      VisitsClosed(ids, r, k - 1, x);
      OccursPrefix(ids, k - 1, x);
    } else if r > 0 {
      VisitsClosed(ids, r - 1, |ids|, x);
      assert ids[..|ids|] == ids;
      OneRoundMore(r - 1, Occurs(ids, x));
    }
  }

  lemma {:induction false} GivenMonotone(ids: seq<Id>, rings: map<Id, seq<Buf>>, r: nat, k: nat, r': nat, k': nat)
    requires k <= |ids| && k' <= |ids| && (r < r' || (r == r' && k <= k'))
    ensures Given(ids, rings, r, k) <= Given(ids, rings, r', k')
    decreases r', k'
  {
    if r != r' || k != k' {
      if k' > 0 {
        GivenMonotone(ids, rings, r, k, r', k' - 1);
      } else {
        GivenMonotone(ids, rings, r, k, r' - 1, |ids|);
      }
    }
  }

  /** With at least one client and a pool that the set-aside empties, the first
      visit already fails. */
  lemma ScarcePool(ids: seq<Id>, rings: map<Id, seq<Buf>>, free: nat)
    requires ids != [] && free <= BURST_MAX
    ensures PoolLasts(ids, rings, free) <==> free == 0
  {}

  /** Spare buffers for every packet the clients can give are enough. */
  lemma AmplePool(ids: seq<Id>, rings: map<Id, seq<Buf>>, free: nat)
    requires free > BURST_MAX + Given(ids, rings, BURST_MAX, 0)
    ensures PoolLasts(ids, rings, free)
  {
    if ids != [] {
      GivenMonotone(ids, rings, BURST_MAX - 1, |ids| - 1, BURST_MAX, 0);
    }
  }

  lemma {:induction false} NobodyVisited(r: nat, x: Id)
    ensures Visits([], r, 0, x) == 0
  {
    if r > 0 {
      NobodyVisited(r - 1, x);
    }
  }

  /** The counts at a point of the schedule. */
  ghost predicate AtPoint(ids: seq<Id>, rings: map<Id, seq<Buf>>, takes: seq<Id>, r: nat, k: nat)
    requires k <= |ids|
  {
    forall x: Id :: Occurs(takes, x) == Smaller(Visits(ids, r, k, x), Backlog(rings, x))
  }

  lemma {:induction false} OccursAppend(xs: seq<Id>, ys: seq<Id>, x: Id)
    ensures Occurs(xs + ys, x) == Occurs(xs, x) + Occurs(ys, x)
  {
    if ys == [] {
      assert xs + ys == xs;
    } else {
      var last := |ys| - 1;
      OccursAppend(xs, ys[..last], x);
      assert xs + ys == (xs + ys[..last]) + [ys[last]];
      OccursOne(xs + ys[..last], ys[last]);
    }
  }

  /** The visits of the first two rounds are the occurrences in the list twice over. */
  lemma TwoRounds(ids: seq<Id>, r: nat, k: nat, x: Id)
    requires r <= 1 && k <= |ids|
    ensures Visits(ids, r, k, x) == Occurs((ids + ids)[..r * |ids| + k], x)
  {
    VisitsClosed(ids, r, k, x);
    if r == 0 {
      assert (ids + ids)[..k] == ids[..k];
    } else {
      assert (ids + ids)[..|ids| + k] == ids + ids[..k];
      OccursAppend(ids, ids[..k], x);
    }
  }

  lemma RoundsGrow(r: nat, a: nat, b: nat)
    requires a <= b
    ensures r * a <= r * b && (r >= 2 ==> 2 * a <= r * a)
  {}

  /** What two rounds show holds for any number of rounds. */
  lemma EvenVisits(ids: seq<Id>, r: nat, k: nat, x: Id, y: Id, cap: nat)
    requires k <= |ids| && InTurn(ids + ids, x, y, cap)
    ensures Visits(ids, r, k, x) <= Visits(ids, r, k, y) + 1 || Visits(ids, r, k, x) >= cap
  {
    var a, b := Occurs(ids, x), Occurs(ids, y);
    VisitsClosed(ids, r, k, x);
    VisitsClosed(ids, r, k, y);
    if r <= 1 {
      TwoRounds(ids, r, k, x);
      TwoRounds(ids, r, k, y);
      assert InTurnAt(ids + ids, x, y, cap, r * |ids| + k);
    } else if a > b {
      TwoRounds(ids, 1, |ids|, x);
      TwoRounds(ids, 1, |ids|, y);
      VisitsClosed(ids, 1, |ids|, x);
      VisitsClosed(ids, 1, |ids|, y);
      assert InTurnAt(ids + ids, x, y, cap, 1 * |ids| + |ids|);
      assert ids[..|ids|] == ids;
      RoundsGrow(r, a, a);
    } else {
      TwoRounds(ids, 0, k, x);
      TwoRounds(ids, 0, k, y);
      VisitsClosed(ids, 0, k, x);
      VisitsClosed(ids, 0, k, y);
      assert InTurnAt(ids + ids, x, y, cap, 0 * |ids| + k);
      RoundsGrow(r, a, b);
    }
  }

  lemma PointIsFair(ids: seq<Id>, rings: map<Id, seq<Buf>>, takes: seq<Id>, r: nat, k: nat, cap: nat)
    requires k <= |ids| && AtPoint(ids, rings, takes, r, k) && EvenlyListed(ids, rings.Keys, cap) && Within(rings, cap)
    ensures Fair(ids, rings, takes)
  {
    forall i, j | 0 <= i < |ids| && 0 <= j < |ids|
                  && Occurs(takes, ids[i]) < Backlog(rings, ids[i])
                  && Occurs(takes, ids[j]) < Backlog(rings, ids[j])
      ensures Occurs(takes, ids[i]) <= Occurs(takes, ids[j]) + 1
    {
      EvenVisits(ids, r, k, ids[i], ids[j], cap);
    }
  }

  lemma StaysFair(ids: seq<Id>, rings: map<Id, seq<Buf>>, before: seq<Id>, takes: seq<Id>, r: nat, k: nat)
    requires FairIfEven(ids, rings, before) && k <= |ids| && AtPoint(ids, rings, takes, r, k)
    requires takes == before || (|takes| == |before| + 1 && takes[..|before|] == before)
    ensures FairIfEven(ids, rings, takes)
  {
    forall cap: nat | EvenlyListed(ids, rings.Keys, cap) && Within(rings, cap)
      ensures AlwaysFair(ids, rings, takes)
    {
      PointIsFair(ids, rings, takes, r, k, cap);
      PrefixesFair(ids, rings, before, takes);
    }
  }

  /** Everything the schedule fixes about the packets taken so far. */
  ghost predicate OnSchedule(ids: seq<Id>, rings: map<Id, seq<Buf>>, takes: seq<Id>, r: nat, k: nat)
    requires k <= |ids|
  {
    && AtPoint(ids, rings, takes, r, k)
    && |takes| == Given(ids, rings, r, k)
    && FairIfEven(ids, rings, takes)
  }

  lemma FirstVisit(ids: seq<Id>, rings: map<Id, seq<Buf>>)
    ensures OnSchedule(ids, rings, [], 0, 0)
  {}

  lemma NextVisit(ids: seq<Id>, rings: map<Id, seq<Buf>>, takes: seq<Id>, r: nat, k: nat)
    requires k < |ids| && OnSchedule(ids, rings, takes, r, k)
    ensures var took := Occurs(takes, ids[k]) < Backlog(rings, ids[k]);
            OnSchedule(ids, rings, if took then takes + [ids[k]] else takes, r, k + 1)
  {
    var took := Occurs(takes, ids[k]) < Backlog(rings, ids[k]);
    var takes' := if took then takes + [ids[k]] else takes;
    OccursOne(takes, ids[k]);
    assert AtPoint(ids, rings, takes', r, k + 1);
    StaysFair(ids, rings, takes, takes', r, k + 1);
  }

  lemma NextRound(ids: seq<Id>, rings: map<Id, seq<Buf>>, takes: seq<Id>, r: nat)
    requires OnSchedule(ids, rings, takes, r, |ids|)
    ensures OnSchedule(ids, rings, takes, r + 1, 0)
  {
    assert forall x: Id :: Visits(ids, r + 1, 0, x) == Visits(ids, r, |ids|, x);
  }

  lemma PrefixesFair(ids: seq<Id>, rings: map<Id, seq<Buf>>, before: seq<Id>, takes: seq<Id>)
    requires AlwaysFair(ids, rings, before)
    requires takes == before || (|takes| == |before| + 1 && takes[..|before|] == before)
    requires Fair(ids, rings, takes)
    ensures AlwaysFair(ids, rings, takes)
  {
    forall n | 0 <= n <= |takes|
      ensures FairAt(ids, rings, takes, n)
    {
      if n <= |before| {
        assert FairAt(ids, rings, before, n);
        assert takes[..n] == before[..n];
      } else {
        assert takes[..n] == takes;
      }
    }
  }

  // ----- One visit -----

  /** What `store_outgoing` works on. */
  datatype View = View(
    free: seq<Buf>,              // the pool
    aside: seq<Buf>,             // the buffers set aside
    ids: seq<Id>,                // allocated_ids
    rings: map<Id, seq<Buf>>,    // C2E rings of the registered clients
    outBuf: seq<Buf>,            // o_bufqueue
    lost: seq<Buf>)              // dequeued mbufs nobody points to

  /** A visit to client `k`: `receive` pops its ring, but it is the placeholder that
      goes to the out queue. */
  function Visited(v: View, k: nat): View
    requires k < |v.ids| && v.free != []
  {
    var id := v.ids[k];
    if Backlog(v.rings, id) > 0 then
      v.(free := v.free[1..], rings := v.rings[id := v.rings[id][1..]],
         outBuf := v.outBuf + [v.free[0]], lost := v.lost + [v.rings[id][0]])
    else v.(free := v.free[1..] + [v.free[0]])
  }

  /** The packets taken, in the order of the takes: each client's from the front of
      its ring. */
  function Popped(rings: map<Id, seq<Buf>>, takes: seq<Id>): seq<Buf> {
    if takes == [] then []
    else
      var before, id := takes[..|takes| - 1], takes[|takes| - 1];
      Popped(rings, before) +
      if Occurs(before, id) < Backlog(rings, id) then [rings[id][Occurs(before, id)]] else []
  }

  /** The rings have given exactly the packets taken from them, from the front, and
      those packets are lost. */
  predicate RingsGave(s: View, v: View, takes: seq<Id>) {
    && v.rings.Keys == s.rings.Keys
    && (forall x :: x in s.rings ==> Occurs(takes, x) <= |s.rings[x]| && v.rings[x] == s.rings[x][Occurs(takes, x)..])
    && v.lost == s.lost + Popped(s.rings, takes)
  }

  /** The out queue was only appended to, one placeholder for every packet taken; the
      placeholders come from the pool, and nothing else left it. */
  predicate Balanced(s: View, v: View, takes: seq<Id>) {
    && s.outBuf <= v.outBuf && |v.outBuf| == |s.outBuf| + |takes|
    && |v.free| + |v.aside| + |takes| == |s.free| + |s.aside|
    && multiset(v.free) + multiset(v.aside) + multiset(v.outBuf[|s.outBuf|..]) == multiset(s.free) + multiset(s.aside)
  }

  /** Where `store_outgoing` stands, having started from `s`, when round `r` has
      reached client `k`. */
  ghost predicate Midway(s: View, v: View, takes: seq<Id>, r: nat, k: nat) {
    && k <= |s.ids| && v.ids == s.ids && v.aside == s.aside
    && RingsGave(s, v, takes)
    && OnSchedule(s.ids, s.rings, takes, r, k)
    && Balanced(s, v, takes)
  }

  function Takes(v: View, takes: seq<Id>, k: nat): seq<Id>
    requires k < |v.ids|
  {
    if Backlog(v.rings, v.ids[k]) > 0 then takes + [v.ids[k]] else takes
  }

  lemma Started(s: View)
    ensures Midway(s, s, [], 0, 0)
  {
    FirstVisit(s.ids, s.rings);
  }

  lemma VisitBalanced(s: View, v: View, takes: seq<Id>, k: nat)
    requires Balanced(s, v, takes) && k < |v.ids| && v.free != []
    ensures Balanced(s, Visited(v, k), Takes(v, takes, k))
  {
    var v', n := Visited(v, k), |s.outBuf|;
    assert v.free == [v.free[0]] + v.free[1..];
    if Backlog(v.rings, v.ids[k]) > 0 {
      assert v'.outBuf[n..] == v.outBuf[n..] + [v.free[0]];
    }
  }

  lemma VisitRings(s: View, v: View, takes: seq<Id>, k: nat)
    requires RingsGave(s, v, takes) && k < |v.ids| && v.free != []
    ensures RingsGave(s, Visited(v, k), Takes(v, takes, k))
    ensures Backlog(v.rings, v.ids[k]) > 0 <==> Occurs(takes, v.ids[k]) < Backlog(s.rings, v.ids[k])
  {
    OccursOne(takes, v.ids[k]);
    assert (takes + [v.ids[k]])[..|takes|] == takes;
  }

  lemma VisitMidway(s: View, v: View, takes: seq<Id>, r: nat, k: nat)
    requires Midway(s, v, takes, r, k) && k < |s.ids| && v.free != []
    ensures Midway(s, Visited(v, k), Takes(v, takes, k), r, k + 1)
  {
    VisitBalanced(s, v, takes, k);
    VisitRings(s, v, takes, k);
    NextVisit(s.ids, s.rings, takes, r, k);
  }

  // ----- Does the pool last? -----

  /** The visit before the one in round `r` to client `k` found a buffer. */
  predicate LastVisitFed(s: View, r: nat, k: nat) {
    && (0 < k <= |s.ids| ==> Given(s.ids, s.rings, r, k - 1) < |s.free|)
    && (k == 0 < r && s.ids != [] ==> Given(s.ids, s.rings, r - 1, |s.ids| - 1) < |s.free|)
  }

  lemma Fed(s: View, v: View, takes: seq<Id>, r: nat, k: nat)
    requires Midway(s, v, takes, r, k) && v.free != []
    ensures LastVisitFed(s, r, k + 1)
  {}

  lemma Starved(s: View, v: View, takes: seq<Id>, r: nat, k: nat)
    requires Midway(s, v, takes, r, k) && v.free == [] && k < |s.ids| && r < |s.aside|
    requires |s.aside| == Rounds(|s.free| + |s.aside|)
    ensures !PoolLasts(s.ids, s.rings, |s.free| + |s.aside|)
  {
    GivenMonotone(s.ids, s.rings, r, k, |s.aside| - 1, |s.ids| - 1);
  }

  /** What a whole call makes of `s`. It answers Ok exactly when the pool lasts.
      Whatever it answers, at every point of the call no client that still had
      packets was two behind another; each ring gave its packets first in, first out;
      the out queue got one placeholder for each of them, and no other buffer left
      the pool. On Ok every client has given as much as the rounds and its backlog
      allow; on Err the spare buffers are used up. */
  ghost predicate Collected(s: View, v: View, takes: seq<Id>, ok: bool) {
    var free := |s.free| + |s.aside|;
    && v.ids == s.ids
    && RingsGave(s, v, takes) && Balanced(s, v, takes)
    && FairIfEven(s.ids, s.rings, takes)
    && (ok <==> PoolLasts(s.ids, s.rings, free))
    && if ok then AtPoint(s.ids, s.rings, takes, Rounds(free), 0) else |takes| == free - Rounds(free)
  }

  /** The rounds are over, or there is nobody to visit. */
  lemma Finished(s: View, v: View, takes: seq<Id>, r: nat, k: nat)
    requires Midway(s, v, takes, r, k) && LastVisitFed(s, r, k) && (k == 0 || s.ids == [])
    requires |s.aside| == Rounds(|s.free| + |s.aside|) && (r == |s.aside| || s.ids == [])
    ensures Collected(s, v, takes, true)
  {
    if s.ids == [] {
      forall x: Id
        ensures Visits(s.ids, Rounds(|s.free| + |s.aside|), 0, x) == 0 == Visits(s.ids, r, k, x)
      {
        NobodyVisited(Rounds(|s.free| + |s.aside|), x);
        NobodyVisited(r, x);
      }
    }
  }

  /** The pool ran dry. */
  lemma StarvedEnds(s: View, v: View, takes: seq<Id>, r: nat, k: nat)
    requires Midway(s, v, takes, r, k) && v.free == [] && k < |s.ids| && r < |s.aside|
    requires |s.aside| == Rounds(|s.free| + |s.aside|)
    ensures Collected(s, v, takes, false)
  {
    Starved(s, v, takes, r, k);
  }

  lemma VisitGoesOn(s: View, v: View, takes: seq<Id>, r: nat, k: nat)
    requires Midway(s, v, takes, r, k) && k < |s.ids| && v.free != []
    ensures Midway(s, Visited(v, k), Takes(v, takes, k), r, k + 1) && LastVisitFed(s, r, k + 1)
  {
    Fed(s, v, takes, r, k);
    VisitMidway(s, v, takes, r, k);
  }

  lemma RoundEnds(s: View, v: View, takes: seq<Id>, r: nat)
    requires Midway(s, v, takes, r, |s.ids|) && LastVisitFed(s, r, |s.ids|) && s.ids != []
    ensures Midway(s, v, takes, r + 1, 0) && LastVisitFed(s, r + 1, 0)
  {
    NextRound(s.ids, s.rings, takes, r);
  }

  /** The two loops from round `r` and client `k` on. */
  datatype Outcome = Outcome(view: View, takes: seq<Id>, ok: bool)

  function Collect(v: View, len: nat, r: nat, k: nat, takes: seq<Id>): (o: Outcome)
    decreases if r < len then len - r else 0, if k < |v.ids| then |v.ids| - k else 0
  {
    if r >= len || v.ids == [] then Outcome(v, takes, true)
    else if k >= |v.ids| then Collect(v, len, r + 1, 0, takes)
    else if v.free == [] then Outcome(v, takes, false)
    else Collect(Visited(v, k), len, r, k + 1, Takes(v, takes, k))
  }

  /** The call is in its loops, on schedule. */
  ghost predicate OnCourse(s: View, v: View, r: nat, k: nat, takes: seq<Id>) {
    && |s.aside| == Rounds(|s.free| + |s.aside|)
    && r <= |s.aside| && k <= |s.ids| && (r == |s.aside| ==> k == 0)
    && Midway(s, v, takes, r, k) && LastVisitFed(s, r, k)
  }

  ghost predicate EndsWell(s: View, o: Outcome) {
    Collected(s, o.view, o.takes, o.ok) && o.view.aside == s.aside
  }

  /** The loops either stop here, well, or go on from the next point. */
  lemma StepOfLoops(s: View, v: View, r: nat, k: nat, takes: seq<Id>)
    requires OnCourse(s, v, r, k, takes)
    ensures v.ids == s.ids
    ensures r >= |s.aside| || s.ids == [] ==> EndsWell(s, Outcome(v, takes, true))
    ensures r < |s.aside| && s.ids != [] && k >= |s.ids| ==> OnCourse(s, v, r + 1, 0, takes)
    ensures r < |s.aside| && k < |s.ids| && v.free == [] ==> EndsWell(s, Outcome(v, takes, false))
    ensures r < |s.aside| && k < |s.ids| && v.free != [] ==> OnCourse(s, Visited(v, k), r, k + 1, Takes(v, takes, k))
  {
    if r >= |s.aside| || s.ids == [] {
      Finished(s, v, takes, r, k);
    } else if k >= |s.ids| {
      RoundEnds(s, v, takes, r);
    } else if v.free == [] {
      StarvedEnds(s, v, takes, r, k);
    } else {
      VisitGoesOn(s, v, takes, r, k);
    }
  }

  /** At this point `inv` carries over to the next one, or the end is `good`. */
  predicate Carried(inv: (View, nat, nat, seq<Id>) -> bool, good: Outcome -> bool, len: nat,
                    v: View, r: nat, k: nat, takes: seq<Id>) {
    inv(v, r, k, takes) ==>
      if r >= len || v.ids == [] then good(Outcome(v, takes, true))
      else if k >= |v.ids| then inv(v, r + 1, 0, takes)
      else if v.free == [] then good(Outcome(v, takes, false))
      else inv(Visited(v, k), r, k + 1, Takes(v, takes, k))
  }

  /** What carries over from point to point leads to a good end. */
  lemma {:induction false} CollectCarries(inv: (View, nat, nat, seq<Id>) -> bool, good: Outcome -> bool,
                                          v: View, len: nat, r: nat, k: nat, takes: seq<Id>)
    requires forall v, r: nat, k: nat, takes :: Carried(inv, good, len, v, r, k, takes)
    requires inv(v, r, k, takes)
    ensures good(Collect(v, len, r, k, takes))
    decreases if r < len then len - r else 0, if k < |v.ids| then |v.ids| - k else 0
  {
    assert Carried(inv, good, len, v, r, k, takes);
    if r < len && v.ids != [] {
      if k >= |v.ids| {
        CollectCarries(inv, good, v, len, r + 1, 0, takes);
      } else if v.free != [] {
        CollectCarries(inv, good, Visited(v, k), len, r, k + 1, Takes(v, takes, k));
      }
    }
  }

  ghost function Course(s: View): (View, nat, nat, seq<Id>) -> bool {
    (v: View, r: nat, k: nat, takes: seq<Id>) => OnCourse(s, v, r, k, takes)
  }

  ghost function GoodEnd(s: View): Outcome -> bool {
    (o: Outcome) => EndsWell(s, o)
  }

  lemma CourseCarries(s: View, v: View, r: nat, k: nat, takes: seq<Id>)
    ensures Carried(Course(s), GoodEnd(s), |s.aside|, v, r, k, takes)
  {
    if OnCourse(s, v, r, k, takes) {
      StepOfLoops(s, v, r, k, takes);
    }
  }

  lemma CourseEndsWell(s: View, v: View, r: nat, k: nat, takes: seq<Id>)
    requires Course(s)(v, r, k, takes)
    ensures GoodEnd(s)(Collect(v, |s.aside|, r, k, takes))
  {
    forall v, r: nat, k: nat, takes
      ensures Carried(Course(s), GoodEnd(s), |s.aside|, v, r, k, takes)
    {
      CourseCarries(s, v, r, k, takes);
    }
    CollectCarries(Course(s), GoodEnd(s), v, |s.aside|, r, k, takes);
  }

  lemma CollectEndsWell(s: View, v: View, r: nat, k: nat, takes: seq<Id>)
    requires OnCourse(s, v, r, k, takes)
    ensures EndsWell(s, Collect(v, |s.aside|, r, k, takes))
  {
    CourseEndsWell(s, v, r, k, takes);
  }

  /** What the loops do, with the buffers set aside before them. */
  lemma CollectIsCollected(s: View)
    requires |s.aside| == Rounds(|s.free| + |s.aside|)
    ensures EndsWell(s, Collect(s, |s.aside|, 0, 0, []))
  {
    Started(s);
    CollectEndsWell(s, s, 0, 0, []);
  }

  // ----- Scarce and ample pools -----

  /** The call left everything as it was, but for the order of the pool. */
  predicate Untaken(s: View, v: View) {
    && v.ids == s.ids && v.rings == s.rings && v.lost == s.lost && v.outBuf == s.outBuf
    && multiset(v.free) + multiset(v.aside) == multiset(s.free) + multiset(s.aside)
  }

  /** With a client and between one and BURST_MAX free buffers the call fails, takes
      nothing from any client and restores the pool; with none it succeeds, and takes
      nothing either. */
  lemma ScarceCall(s: View, v: View, takes: seq<Id>, ok: bool)
    requires Collected(s, v, takes, ok) && s.ids != [] && |s.free| + |s.aside| <= BURST_MAX
    ensures ok <==> |s.free| + |s.aside| == 0
    ensures takes == [] && Untaken(s, v)
  {
    ScarcePool(s.ids, s.rings, |s.free| + |s.aside|);
    assert takes == [];
    assert v.rings == s.rings;
    assert v.outBuf == s.outBuf;
    assert multiset(v.outBuf[|s.outBuf|..]) == multiset{};
  }

  /** With more free buffers than BURST_MAX and all the packets the clients can give,
      the call succeeds and every client gives all it has, up to BURST_MAX for each time
      it is listed. */
  lemma AmpleCall(s: View, v: View, takes: seq<Id>, ok: bool, x: Id)
    requires Collected(s, v, takes, ok)
    requires |s.free| + |s.aside| > BURST_MAX + Given(s.ids, s.rings, BURST_MAX, 0)
    ensures ok && Occurs(takes, x) == Smaller(BURST_MAX * Occurs(s.ids, x), Backlog(s.rings, x))
  {
    AmplePool(s.ids, s.rings, |s.free| + |s.aside|);
    VisitsClosed(s.ids, BURST_MAX, 0, x);
  }

  // ----- The whole call -----

  lemma BalancedWhole(s0: View, s: View, v: View, v1: View, takes: seq<Id>)
    requires s0.aside == v1.aside == [] && s.aside + s.free == s0.free && v1.free == v.free + v.aside
    requires Balanced(s, v, takes) && s0.outBuf == s.outBuf && v1.outBuf == v.outBuf
    ensures Balanced(s0, v1, takes)
  {
    assert multiset(s0.free) == multiset(s.aside) + multiset(s.free);
    assert multiset(v1.free) == multiset(v.free) + multiset(v.aside);
    assert multiset(s0.free) + multiset(s0.aside) == multiset(s.free) + multiset(s.aside);
    assert multiset(v1.free) + multiset(v1.aside) == multiset(v.free) + multiset(v.aside);
  }

  /** Setting buffers aside before and putting them back afterwards changes nothing
      else. */
  lemma WholeCall(s0: View, s: View, v: View, v1: View, takes: seq<Id>, ok: bool)
    requires s0.aside == [] && s == s0.(free := s.free, aside := s.aside) && s.aside + s.free == s0.free
    requires v1 == v.(free := v.free + v.aside, aside := [])
    requires Collected(s, v, takes, ok)
    ensures Collected(s0, v1, takes, ok)
  {
    BalancedWhole(s0, s, v, v1, takes);
  }

  /** What `store_outgoing` makes of a view: buffers are set aside, the loops run, and
      the buffers go back. */
  function Outgoing(v: View): Outcome {
    var n := Rounds(|v.free|);
    var o := Collect(v.(free := v.free[n..], aside := v.free[..n]), n, 0, 0, []);
    Outcome(o.view.(free := o.view.free + o.view.aside, aside := []), o.takes, o.ok)
  }

  lemma OutgoingCollected(v: View)
    requires v.aside == []
    ensures var o := Outgoing(v); Collected(v, o.view, o.takes, o.ok)
  {
    var n := Rounds(|v.free|);
    var s := v.(free := v.free[n..], aside := v.free[..n]);
    var o := Collect(s, n, 0, 0, []);
    CollectIsCollected(s);
    WholeCall(v, s, o.view, o.view.(free := o.view.free + o.view.aside, aside := []), o.takes, o.ok);
  }

  /** With a client and between one and BURST_MAX free buffers. */
  lemma ScarceOutgoing(v: View)
    requires v.aside == [] && v.ids != [] && 1 <= |v.free| <= BURST_MAX
    ensures var o := Outgoing(v);
            !o.ok && o.takes == [] && Untaken(v, o.view) && multiset(o.view.free) == multiset(v.free)
  {
    var o := Outgoing(v);
    OutgoingCollected(v);
    ScarceCall(v, o.view, o.takes, o.ok);
    PoolRestored(v, o.view);
  }

  lemma PoolRestored(s: View, v: View)
    requires Untaken(s, v) && s.aside == v.aside == []
    ensures multiset(v.free) == multiset(s.free)
  {
    assert multiset(s.aside) == multiset{} && multiset(v.aside) == multiset{};
    assert multiset(v.free) + multiset(v.aside) == multiset(v.free);
    assert multiset(s.free) + multiset(s.aside) == multiset(s.free);
  }
}
