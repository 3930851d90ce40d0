/** When an account can be passed over for ever although it is a candidate of every
    call: the exact condition on the pool, for calls that change between the two
    rotations as they like. */
module Starvation {
  import opened Common
  import opened Accounts
  import opened Candidates
  import opened RouterSpec
  import W = WeightedRotation
  import C = CursorRotation

  ghost predicate Offers(pool: seq<Account>, goal: Account, call: Call) {
    Offered(pool, call.cs) && goal in call.cs && call.view.config.strategy != LeastInFlight
  }

  ghost predicate AllOffer(pool: seq<Account>, goal: Account, calls: seq<Call>) {
    forall k :: 0 <= k < |calls| ==> Offers(pool, goal, calls[k])
  }

  /** Every call offers the goal and none picks it. */
  ghost predicate PassedOver(pool: seq<Account>, goal: Account, st: RouterState, calls: seq<Call>,
                             filter: RegionFilter, model: string)
  {
    && AllOffer(pool, goal, calls)
    && NonEmpty(calls)
    && forall k :: 0 <= k < |calls| ==> RotateRun(st, calls, filter, model).0[k] != goal.id
  }

  ghost predicate NonEmpty(calls: seq<Call>) {
    forall k :: 0 <= k < |calls| ==> calls[k].cs != []
  }

  /** From some state on, runs of every length pass the goal over. */
  ghost predicate CanStarve(pool: seq<Account>, goal: Account, filter: RegionFilter, model: string) {
    exists st :: StarvesFrom(pool, goal, st, filter, model)
  }

  ghost predicate StarvesFrom(pool: seq<Account>, goal: Account, st: RouterState, filter: RegionFilter, model: string) {
    forall n: nat :: CanPassOver(pool, goal, st, n, filter, model)
  }

  ghost predicate CanPassOver(pool: seq<Account>, goal: Account, st: RouterState, n: nat,
                              filter: RegionFilter, model: string)
  {
    exists calls :: |calls| == n && PassedOver(pool, goal, st, calls, filter, model)
  }

  predicate Precedes(pool: seq<Account>, x: Account, y: Account) {
    exists i, j :: 0 <= i < j < |pool| && pool[i] == x && pool[j] == y
  }

  /** y is met strictly between x and z when the IDs are gone through in a circle. */
  predicate Between(x: string, y: string, z: string) {
    || (C.Less(x, y) && C.Less(y, z))
    || (C.Less(y, z) && C.Less(z, x))
    || (C.Less(z, x) && C.Less(x, y))
  }

  /** Weighted calls pick b ahead of the goal: it is heavier, or as heavy, earlier in the
      pool, and weights differ at all. */
  ghost predicate Beats(pool: seq<Account>, b: Account, goal: Account) {
    || Weight(b) > Weight(goal)
    || (Weight(b) == Weight(goal) && Precedes(pool, b, goal) && exists d :: d in pool && Weight(d) != Weight(goal))
  }

  /** Weighted calls pick b, and plain calls after b pick c instead of the goal. */
  ghost predicate Blocks(pool: seq<Account>, goal: Account, b: Account, c: Account) {
    && b in pool && c in pool && b != goal
    && Beats(pool, b, goal)
    && Weight(c) == Weight(goal) && Between(b.id, c.id, goal.id)
  }

  // ---- Windows of a run ----

  lemma {:induction false} RunSplits(st: RouterState, xs: seq<Call>, ys: seq<Call>, filter: RegionFilter, model: string)
    requires NonEmpty(xs) && NonEmpty(ys)
    ensures NonEmpty(xs + ys)
    ensures var (ids, mid) := RotateRun(st, xs, filter, model);
            var (more, end) := RotateRun(mid, ys, filter, model);
            RotateRun(st, xs + ys, filter, model) == (ids + more, end)
  {
    hide Rotated, RotateRun;
    RunStep(st, xs + ys, filter, model);
    RunStep(RotateRun(st, xs, filter, model).1, ys, filter, model);
    if ys == [] {
      assert xs + ys == xs;
      assert RotateRun(st, xs, filter, model).0 + [] == RotateRun(st, xs, filter, model).0;
    } else {
      var n := |ys| - 1;
      assert (xs + ys)[..|xs + ys| - 1] == xs + ys[..n];
      RunSplits(st, xs, ys[..n], filter, model);
      var last := ys[n];
      assert (xs + ys)[|xs + ys| - 1] == last;
      var (ids, mid) := RotateRun(st, xs, filter, model);
      var (more, late) := RotateRun(mid, ys[..n], filter, model);
      var (acc, _) := Rotated(late, last.cs, filter, model, last.view);
      assert ids + more + [acc.id] == ids + (more + [acc.id]);
    }
  }

  /** The state before call i. */
  ghost function Before(st: RouterState, calls: seq<Call>, i: nat, filter: RegionFilter, model: string): RouterState
    requires i <= |calls| && NonEmpty(calls)
  {
    RotateRun(st, calls[..i], filter, model).1
  }

  lemma Window(st: RouterState, calls: seq<Call>, i: nat, j: nat, filter: RegionFilter, model: string)
    requires i <= j <= |calls| && NonEmpty(calls)
    ensures var (ids, end) := RotateRun(Before(st, calls, i, filter, model), calls[i..j], filter, model);
            ids == RotateRun(st, calls, filter, model).0[i..j] && end == Before(st, calls, j, filter, model)
  {
    hide RotateRun;
    RunSplits(st, calls[..i], calls[i..j], filter, model);
    assert calls[..j] == calls[..i] + calls[i..j];
    RunSplits(st, calls[..j], calls[j..], filter, model);
    assert calls == calls[..j] + calls[j..];
  }

  lemma PassedOverWindow(pool: seq<Account>, goal: Account, st: RouterState, calls: seq<Call>, i: nat, j: nat,
                         filter: RegionFilter, model: string)
    requires PassedOver(pool, goal, st, calls, filter, model) && i <= j <= |calls|
    ensures PassedOver(pool, goal, Before(st, calls, i, filter, model), calls[i..j], filter, model)
  {
    hide RotateRun, Offers;
    Window(st, calls, i, j, filter, model);
  }

  lemma PassedOverJoins(pool: seq<Account>, goal: Account, st: RouterState, xs: seq<Call>, ys: seq<Call>,
                        filter: RegionFilter, model: string)
    requires PassedOver(pool, goal, st, xs, filter, model)
    requires PassedOver(pool, goal, RotateRun(st, xs, filter, model).1, ys, filter, model)
    ensures PassedOver(pool, goal, st, xs + ys, filter, model)
  {
    hide RotateRun, Offers;
    RunSplits(st, xs, ys, filter, model);
  }

  // ---- One call ----

  lemma OfferedMembers(pool: seq<Account>, cs: seq<Account>)
    requires Offered(pool, cs)
    ensures forall x :: x in cs ==> x in pool
    ensures |cs| <= |pool| && Sum(Weights(cs)) <= Sum(Weights(pool))
    ensures DistinctIds(pool) ==> DistinctIds(cs)
  {
    var keep: Account -> bool :| cs == Filter(pool, keep);
    FilterMembers(pool, keep);
    FilterWeighsLess(pool, keep);
    if DistinctIds(pool) {
      FilterDistinct(pool, keep);
    }
  }

  lemma WeighsMore(cs: seq<Account>, last: Account)
    ensures Sum(Weights(cs + [last])) == Sum(Weights(cs)) + Weight(last)
  {
    assert Weights(cs + [last])[..|cs|] == Weights(cs);
    SumPrefix(Weights(cs), Weights(cs + [last]), |cs|);
  }

  lemma {:induction false} FilterWeighsLess(cs: seq<Account>, keep: Account -> bool)
    ensures Sum(Weights(Filter(cs, keep))) <= Sum(Weights(cs))
  {
    hide Sum, Weight;
    if cs != [] {
      var init, last := cs[..|cs| - 1], cs[|cs| - 1];
      FilterWeighsLess(init, keep);
      assert cs == init + [last];
      WeighsMore(init, last);
      WeighsMore(Filter(init, keep), last);
    }
  }

  lemma {:induction false} FilterKeepsOrder(pool: seq<Account>, keep: Account -> bool, i: nat, j: nat)
    requires i < j < |Filter(pool, keep)|
    ensures Precedes(pool, Filter(pool, keep)[i], Filter(pool, keep)[j])
  {
    var init, last := pool[..|pool| - 1], pool[|pool| - 1];
    var kept := Filter(init, keep);
    FilterMembers(init, keep);
    if j < |kept| {
      FilterKeepsOrder(init, keep, i, j);
      var a, b :| 0 <= a < b < |init| && init[a] == kept[i] && init[b] == kept[j];
      assert pool[a] == kept[i] && pool[b] == kept[j];
    } else {
      assert kept[i] in kept;
      var a :| 0 <= a < |init| && init[a] == kept[i];
      assert pool[a] == kept[i] && pool[|pool| - 1] == last;
    }
  }

  lemma OfferedOrder(pool: seq<Account>, cs: seq<Account>, i: nat, j: nat)
    requires Offered(pool, cs) && i < j < |cs|
    ensures Precedes(pool, cs[i], cs[j])
  {
    var keep: Account -> bool :| cs == Filter(pool, keep);
    FilterKeepsOrder(pool, keep, i, j);
  }

  /** A plain call forgets the route's running weights; every call leaves the cursor on
      what it picked. */
  lemma CallLeaves(st: RouterState, call: Call, filter: RegionFilter, model: string)
    requires call.cs != []
    ensures var (acc, st') := Rotated(st, call.cs, filter, model, call.view);
            && acc in call.cs && CursorOf(st', RouteKey(filter, model)) == acc.id
            && (PlainCall(call) ==> RouteKey(filter, model) !in st'.wrr)
  {
  }

  /** A plain call with the cursor on another account that does not pick the goal picks
      one between the two. */
  lemma PlainPicksBetween(st: RouterState, call: Call, goal: Account, b: string, filter: RegionFilter, model: string)
    requires PlainCall(call) && goal in call.cs && CursorOf(st, RouteKey(filter, model)) == b
    requires b != "" && b != goal.id
    ensures var c := Rotated(st, call.cs, filter, model, call.view).0;
            c in call.cs && (c.id != goal.id ==> Between(b, c.id, goal.id))
  {
    hide C.Less, Rotated;
    PlainStep(st, call, filter, model);
    CallLeaves(st, call, filter, model);
    var c := Rotated(st, call.cs, filter, model, call.view).0;
    assert goal.id in Ids(call.cs) && c.id in Ids(call.cs);
    C.LessTotal(b, goal.id);
    C.LessTotal(c.id, goal.id);
    C.LessTotal(b, c.id);
  }

  // ---- Who can be picked ahead of the goal ----

  /** In a weighted run from an absent entry an account earns at most its weight per call. */
  lemma {:induction false} EarnsAtMost(sets: seq<seq<Account>>, id: string, w: nat)
    requires forall k :: 0 <= k < |sets| ==> W.ValidSet(sets[k])
    requires forall k :: 0 <= k < |sets| && id in Ids(sets[k]) ==> Weight(sets[k][W.Position(sets[k], id)]) <= w
    ensures W.At(W.AfterChurn(map[], sets), id) <= |sets| * w
  {
    hide W.Step, Weight, W.Position, DistinctIds, Ids;
    if sets != [] {
      var n := |sets| - 1;
      var before, cs := sets[..n], sets[n];
      assert W.ValidSet(cs);
      EarnsAtMost(before, id, w);
      assert |sets| * w == n * w + w;
      var state := W.AfterChurn(map[], before);
      if id in Ids(cs) {
        W.StepEarnsAndPays(state, cs, W.Position(cs, id));
        TotalIsPositive(cs);
      } else {
        NotEmpty(cs);
        W.LeaverIsForgotten(state, cs, id);
      }
    }
  }

  lemma TotalIsPositive(cs: seq<Account>)
    ensures Sum(Weights(cs)) >= 0
  {
    W.SumOfPositives(Weights(cs), |cs|);
  }

  /** The pick of a weighted step, seen from a candidate with a positive raised weight. */
  lemma PickOutweighs(state: W.Running, cs: seq<Account>, g: nat)
    requires W.ValidSet(cs) && g < |cs| && W.At(state, cs[g].id) + Weight(cs[g]) > 0
    ensures var i := W.Step(state, cs).0;
            var mine, theirs := W.At(state, cs[g].id) + Weight(cs[g]), W.At(state, cs[i].id) + Weight(cs[i]);
            mine < theirs || (mine == theirs && i <= g)
  {
    hide W.Step;
    W.StepIsVectorStep(state, cs);
    var r := W.Raise(W.Vector(state, cs), Weights(cs));
    assert r[g] <= W.Scan(r, |r|).1;
  }

  lemma MoreTurnsPerWeight(turns: nat, mine: int, theirs: int)
    requires turns > 0 && turns * mine <= turns * theirs
    ensures mine <= theirs
  {
    if theirs < mine {
      W.MulMonotone(turns, theirs + 1, mine);
    }
  }

  /** Fixed weights: the account with an ID is the same in every call. */
  lemma SameInPool(pool: seq<Account>, cs: seq<Account>, acc: Account)
    requires DistinctIds(pool) && Offered(pool, cs) && acc in pool && acc.id in Ids(cs)
    ensures cs[W.Position(cs, acc.id)] == acc && acc in cs
  {
    OfferedMembers(pool, cs);
    var other := cs[W.Position(cs, acc.id)];
    assert other in pool && other.id == acc.id;
  }

  lemma AllValid(pool: seq<Account>, goal: Account, calls: seq<Call>)
    requires DistinctIds(pool) && AllOffer(pool, goal, calls)
    ensures NonEmpty(calls) && forall k :: 0 <= k < |calls| ==> W.ValidSet(calls[k].cs)
  {
    forall k | 0 <= k < |calls|
      ensures calls[k].cs != [] && W.ValidSet(calls[k].cs)
    {
      assert Offers(pool, goal, calls[k]);
      OfferedMembers(pool, calls[k].cs);
    }
  }

  /** No call has equal weights. */
  ghost predicate AllWeighted(calls: seq<Call>) {
    forall k :: 0 <= k < |calls| ==> !Uniform(calls[k].cs)
  }

  lemma WeightedOffers(pool: seq<Account>, goal: Account, calls: seq<Call>)
    requires DistinctIds(pool) && AllOffer(pool, goal, calls) && AllWeighted(calls)
    ensures WeightedCalls(calls)
  {
    AllValid(pool, goal, calls);
    forall k | 0 <= k < |calls|
      ensures IsWeighted(calls[k])
    {
      assert Offers(pool, goal, calls[k]);
    }
  }

  /** The last pick of a weighted run from an absent entry that passes the goal over. */
  lemma LastPickBeats(pool: seq<Account>, goal: Account, st: RouterState, calls: seq<Call>,
                      filter: RegionFilter, model: string) returns (b: Account)
    requires DistinctIds(pool) && goal in pool && RouteKey(filter, model) !in st.wrr
    requires PassedOver(pool, goal, st, calls, filter, model) && AllWeighted(calls) && |calls| > 0
    ensures b in pool && b != goal && Beats(pool, b, goal)
    ensures b.id == RotateRun(st, calls, filter, model).0[|calls| - 1]
  {
    hide W.Step, RotateRun, Weight, W.Position, Offered, Beats, Uniform, Ids, DistinctIds;
    var n := |calls| - 1;
    var sets := SetsOf(calls);
    AllValid(pool, goal, calls);
    WeightedOffers(pool, goal, calls);
    WeightedRunFollowsChurn(st, calls, filter, model);
    var cs := calls[n].cs;
    var ids := RotateRun(st, calls, filter, model).0;
    assert Offers(pool, goal, calls[n]) && W.ValidSet(cs);
    OfferedMembers(pool, cs);
    IdOf(goal, cs);
    var g := W.Position(cs, goal.id);
    SameInPool(pool, cs, goal);
    var state := W.AfterChurn(map[], sets[..n]);
    assert W.PicksAt(map[], sets, ids[n], n);
    var i := W.Step(state, cs).0;
    b := cs[i];
    SharesOfRun(pool, goal, b, st, calls, filter, model);
    W.MulMonotone(n, 0, Weight(goal));
    WeightPositive(goal);
    PickOutweighs(state, cs, g);
    BeatsByTurns(pool, cs, g, i, n, W.At(state, goal.id), W.At(state, b.id));
  }

  lemma WeightPositive(acc: Account)
    ensures Weight(acc) >= 1
  {
  }

  /** Who has at most its weight per turn and still more than the goal, which has at least
      that, beats it. */
  lemma BeatsByTurns(pool: seq<Account>, cs: seq<Account>, g: nat, i: nat, n: nat, goals: int, theirs: int)
    requires Offered(pool, cs) && !Uniform(cs) && g < |cs| && i < |cs| && i != g
    requires goals >= n * Weight(cs[g]) && theirs <= n * Weight(cs[i])
    requires var mine, other := goals + Weight(cs[g]), theirs + Weight(cs[i]); mine < other || (mine == other && i <= g)
    ensures Beats(pool, cs[i], cs[g])
  {
    hide Weight, Offered, Uniform;
    assert (n + 1) * Weight(cs[g]) == n * Weight(cs[g]) + Weight(cs[g]);
    assert (n + 1) * Weight(cs[i]) == n * Weight(cs[i]) + Weight(cs[i]);
    MoreTurnsPerWeight(n + 1, Weight(cs[g]), Weight(cs[i]));
    if Weight(cs[i]) == Weight(cs[g]) {
      OfferedOrder(pool, cs, i, g);
      WeightsDiffer(pool, cs, cs[g]);
    }
  }

  lemma WeightsDiffer(pool: seq<Account>, cs: seq<Account>, goal: Account)
    requires Offered(pool, cs) && !Uniform(cs) && goal in cs
    ensures exists d :: d in pool && Weight(d) != Weight(goal)
  {
    OfferedMembers(pool, cs);
    var d :| d in cs && Weight(d) != Weight(cs[0]);
    assert d in pool && cs[0] in pool;
  }

  ghost predicate AllValidSets(sets: seq<seq<Account>>) {
    forall k :: 0 <= k < |sets| ==> W.ValidSet(sets[k])
  }

  /** Before the last call the goal holds its weight per call, and nobody more than theirs. */
  lemma SharesOfRun(pool: seq<Account>, goal: Account, b: Account, st: RouterState, calls: seq<Call>,
                    filter: RegionFilter, model: string)
    requires DistinctIds(pool) && goal in pool && b in pool && RouteKey(filter, model) !in st.wrr
    requires PassedOver(pool, goal, st, calls, filter, model) && AllWeighted(calls) && |calls| > 0
    ensures var n := |calls| - 1;
            && AllValidSets(SetsOf(calls)[..n])
            && var state := W.AfterChurn(map[], SetsOf(calls)[..n]);
               W.At(state, goal.id) >= n * Weight(goal) && W.At(state, b.id) <= n * Weight(b)
  {
    hide W.Step, RotateRun, Weight, W.Position, Offered, DistinctIds, Ids;
    var n := |calls| - 1;
    var sets := SetsOf(calls);
    AllValid(pool, goal, calls);
    WeightedOffers(pool, goal, calls);
    WeightedRunFollowsChurn(st, calls, filter, model);
    var ids := RotateRun(st, calls, filter, model).0;
    forall k | 0 <= k < n
      ensures W.ValidSet(sets[..n][k]) && goal.id in Ids(sets[..n][k])
      ensures Weight(sets[..n][k][W.Position(sets[..n][k], goal.id)]) == Weight(goal)
      ensures b.id in Ids(sets[..n][k]) ==> Weight(sets[..n][k][W.Position(sets[..n][k], b.id)]) == Weight(b)
    {
      assert Offers(pool, goal, calls[k]) && sets[..n][k] == calls[k].cs;
      IdOf(goal, calls[k].cs);
      SameInPool(pool, calls[k].cs, goal);
      if b.id in Ids(calls[k].cs) {
        SameInPool(pool, calls[k].cs, b);
      }
    }
    forall k | 0 <= k < n
      ensures !W.PicksAt(map[], sets[..n], goal.id, k)
    {
      assert sets[..n][..k] == sets[..k] && W.PicksAt(map[], sets, ids[k], k);
    }
    W.UnpickedEarns(map[], sets[..n], goal.id, Weight(goal));
    EarnsAtMost(sets[..n], b.id, Weight(b));
  }

  lemma IdOf(acc: Account, cs: seq<Account>)
    requires acc in cs
    ensures acc.id in Ids(cs)
  {
  }

  // ---- How long the goal can be passed over by one rotation alone ----

  /** What the candidates of a weighted call can hold at most. */
  function Ceiling(pool: seq<Account>): nat {
    TotalIsPositive(pool);
    |pool| * Sum(Weights(pool))
  }

  /** More weighted calls than this pick the goal. */
  ghost function WeightedSpan(pool: seq<Account>, goal: Account, running: W.Running): nat {
    var credit := W.Credit(running);
    var bound := if credit < Ceiling(pool) then Ceiling(pool) else credit;
    var start := W.At(running, goal.id);
    if bound - start < 0 then 0 else bound - start
  }

  lemma WeightedSpanEnds(pool: seq<Account>, goal: Account, st: RouterState, calls: seq<Call>,
                         filter: RegionFilter, model: string)
    requires DistinctIds(pool) && goal in pool
    requires PassedOver(pool, goal, st, calls, filter, model) && AllWeighted(calls)
    ensures |calls| <= WeightedSpan(pool, goal, RunningOf(st, RouteKey(filter, model)))
  {
    hide RotateRun, W.Credit, Offered, Weight, W.Position, Ids;
    var running := RunningOf(st, RouteKey(filter, model));
    var credit := W.Credit(running);
    var bound := if credit < Ceiling(pool) then Ceiling(pool) else credit;
    WeightedOffers(pool, goal, calls);
    forall k | 0 <= k < |calls|
      ensures goal.id in Ids(calls[k].cs) && Weight(calls[k].cs[W.Position(calls[k].cs, goal.id)]) >= 1
      ensures |calls[k].cs| * Sum(Weights(calls[k].cs)) <= bound
    {
      assert Offers(pool, goal, calls[k]);
      IdOf(goal, calls[k].cs);
      CeilingHolds(pool, calls[k].cs);
    }
    if |calls| > bound - W.At(running, goal.id) {
      WeightedRouterNeverStarves(st, calls, filter, model, goal.id, 1, bound);
      assert false;
    }
  }

  lemma CeilingHolds(pool: seq<Account>, cs: seq<Account>)
    requires Offered(pool, cs)
    ensures |cs| * Sum(Weights(cs)) <= Ceiling(pool)
  {
    OfferedMembers(pool, cs);
    TotalIsPositive(cs);
    W.MulMonotone(|cs|, Sum(Weights(cs)), Sum(Weights(pool)));
    W.MulMonotone(Sum(Weights(pool)), |cs|, |pool|);
  }

  lemma PlainSpanEnds(pool: seq<Account>, goal: Account, st: RouterState, calls: seq<Call>,
                      filter: RegionFilter, model: string)
    requires DistinctIds(pool) && goal in pool && "" !in Ids(pool)
    requires PassedOver(pool, goal, st, calls, filter, model) && forall k :: 0 <= k < |calls| ==> Uniform(calls[k].cs)
    ensures |calls| < |pool|
  {
    hide RotateRun, Offered, Uniform;
    IdsAtMost(pool);
    if |calls| >= |pool| {
      forall k | 0 <= k < |calls|
        ensures PlainCall(calls[k]) && goal.id in Ids(calls[k].cs) && Ids(calls[k].cs) <= Ids(pool)
      {
        assert Offers(pool, goal, calls[k]);
        OfferedMembers(pool, calls[k].cs);
      }
      RouterNeverStarves(st, calls, filter, model, Ids(pool), goal.id);
      assert false;
    }
  }

  lemma {:induction false} IdsAtMost(pool: seq<Account>)
    ensures |Ids(pool)| <= |pool|
  {
    if pool != [] {
      var init, last := pool[..|pool| - 1], pool[|pool| - 1];
      IdsAtMost(init);
      assert pool == init + [last];
      assert Ids(pool) == Ids(init) + {last.id};
    }
  }

  // ---- A long run that passes the goal over shows who blocks it ----

  /** The first call from a position on that is plain, or weighted, as asked. */
  lemma {:induction false} FirstOf(calls: seq<Call>, plain: bool, from: nat, end: nat) returns (i: nat)
    requires from <= end <= |calls|
    ensures from <= i <= end && (i < end ==> Uniform(calls[i].cs) == plain)
    ensures forall k :: from <= k < i ==> Uniform(calls[k].cs) != plain
    decreases end - from
  {
    hide Uniform;
    if from == end || Uniform(calls[from].cs) == plain {
      i := from;
    } else {
      i := FirstOf(calls, plain, from + 1, end);
    }
  }

  /** A run of this many calls from a state picks the goal unless somebody blocks it. */
  ghost function Enough(pool: seq<Account>, goal: Account, running: W.Running): nat {
    WeightedSpan(pool, goal, running) + 1 + |pool| + Ceiling(pool) + 1
  }

  lemma AbsentSpan(pool: seq<Account>, goal: Account)
    ensures WeightedSpan(pool, goal, map[]) == Ceiling(pool)
  {
  }

  lemma StateBefore(st: RouterState, calls: seq<Call>, i: nat, filter: RegionFilter, model: string)
    requires i < |calls| && NonEmpty(calls)
    ensures var call := calls[i];
            var (acc, st') := Rotated(Before(st, calls, i, filter, model), call.cs, filter, model, call.view);
            RotateRun(st, calls, filter, model).0[i] == acc.id && Before(st, calls, i + 1, filter, model) == st'
  {
    hide Rotated, RotateRun;
    var prefix := calls[..i + 1];
    assert prefix[..i] == calls[..i] && prefix[i] == calls[i];
    RunStep(st, prefix, filter, model);
    RunSplits(st, prefix, calls[i + 1..], filter, model);
    assert calls == prefix + calls[i + 1..];
  }

  lemma LongRunNamesBlockers(pool: seq<Account>, goal: Account, st: RouterState, calls: seq<Call>,
                             filter: RegionFilter, model: string) returns (b: Account, c: Account)
    requires DistinctIds(pool) && goal in pool && "" !in Ids(pool)
    requires PassedOver(pool, goal, st, calls, filter, model)
    requires |calls| >= Enough(pool, goal, RunningOf(st, RouteKey(filter, model)))
    ensures Blocks(pool, goal, b, c)
  {
    hide RotateRun, Rotated, Offered, Uniform, WeightedSpan, Ceiling, Ids, DistinctIds, Beats, Between, Weight;
    var key := RouteKey(filter, model);
    // the first plain call, the first weighted call after it, and the next plain call
    var span := WeightedSpan(pool, goal, RunningOf(st, key)) + 1;
    var i := FirstOf(calls, true, 0, span);
    if i == span {
      PassedOverWindow(pool, goal, st, calls, 0, span, filter, model);
      FromTheStart(st, calls, filter, model);
      WeightedSpanEnds(pool, goal, st, calls[0..span], filter, model);
      assert false;
    }
    var j := FirstOf(calls, false, i, i + |pool|);
    if j == i + |pool| {
      PassedOverWindow(pool, goal, st, calls, i, j, filter, model);
      PlainSpanEnds(pool, goal, Before(st, calls, i, filter, model), calls[i..j], filter, model);
      assert false;
    }
    assert i < j;
    assert Offers(pool, goal, calls[j - 1]);
    StateBefore(st, calls, j - 1, filter, model);
    CallLeaves(Before(st, calls, j - 1, filter, model), calls[j - 1], filter, model);
    var absent := Before(st, calls, j, filter, model);
    assert key !in absent.wrr && RunningOf(absent, key) == map[];
    AbsentSpan(pool, goal);
    var end := j + Ceiling(pool) + 1;
    var m := FirstOf(calls, true, j, end);
    PassedOverWindow(pool, goal, st, calls, j, m, filter, model);
    if m == end {
      WeightedSpanEnds(pool, goal, absent, calls[j..m], filter, model);
      assert false;
    }
    assert j < m;
    b := LastPickBeats(pool, goal, absent, calls[j..m], filter, model);
    Window(st, calls, j, m, filter, model);
    c := PlainNamesBetween(pool, goal, b, st, calls, m, filter, model);
  }

  lemma FromTheStart(st: RouterState, calls: seq<Call>, filter: RegionFilter, model: string)
    requires NonEmpty(calls)
    ensures Before(st, calls, 0, filter, model) == st
  {
  }

  lemma PlainNamesBetween(pool: seq<Account>, goal: Account, b: Account, st: RouterState, calls: seq<Call>, m: nat,
                          filter: RegionFilter, model: string) returns (c: Account)
    requires DistinctIds(pool) && goal in pool && b in pool && b != goal && "" !in Ids(pool)
    requires PassedOver(pool, goal, st, calls, filter, model) && 0 < m < |calls| && Uniform(calls[m].cs)
    requires RotateRun(st, calls, filter, model).0[m - 1] == b.id
    ensures c in pool && Weight(c) == Weight(goal) && Between(b.id, c.id, goal.id)
  {
    hide RotateRun, Rotated, Offered, Weight, Between;
    assert Offers(pool, goal, calls[m]) && Offers(pool, goal, calls[m - 1]);
    StateBefore(st, calls, m - 1, filter, model);
    CallLeaves(Before(st, calls, m - 1, filter, model), calls[m - 1], filter, model);
    StateBefore(st, calls, m, filter, model);
    var before := Before(st, calls, m, filter, model);
    IdOf(b, pool);
    assert b.id != goal.id;
    PlainPicksBetween(before, calls[m], goal, b.id, filter, model);
    c := Rotated(before, calls[m].cs, filter, model, calls[m].view).0;
    OfferedMembers(pool, calls[m].cs);
  }

  // ---- Who is blocked can be passed over for ever ----

  /** In the weighted run over the whole pool b is picked before the goal. */
  lemma PickedFirst(pool: seq<Account>, b: nat, g: nat) returns (k: nat)
    requires DistinctIds(pool) && b < |pool| && g < |pool|
    requires Weight(pool[b]) > Weight(pool[g]) || (Weight(pool[b]) == Weight(pool[g]) && b < g)
    ensures W.Picked(pool, k + 1)[k] == b
    ensures g !in W.Picked(pool, k + 1)
  {
    hide W.Step, Sum, Weights, W.Vector, W.After, W.Picked;
    var total: nat := TotalOf(pool);
    W.ExactFairness(pool, 0, b);
    var all := W.Picked(pool, total);
    assert all[0..] == all;
    OccursOnce(all, b, Weight(pool[b]));
    k := FirstPickOf(all, b, g, 0);
    W.PickedPrefix(pool, k, total);
    W.PickedPrefix(pool, k + 1, total);
    var picks := W.Picked(pool, k);
    NoOccurrence(picks, b);
    NoOccurrence(picks, g);
    W.PrefixFairness(pool, k);
    W.PickIsFirstMaximum(pool, k);
    var v := W.Vector(W.After(pool, k), pool);
    var r := W.Raise(v, Weights(pool));
    assert v[b] == k * Weight(pool[b]) - Sum(Weights(pool)) * 0 && v[g] == k * Weight(pool[g]) - Sum(Weights(pool)) * 0;
    W.MulMonotone(k, Weight(pool[g]), Weight(pool[b]));
    assert r[g] <= r[b];
    assert W.Picked(pool, k + 1)[k] == all[k];
  }

  lemma TotalOf(pool: seq<Account>) returns (total: nat)
    ensures total == Sum(Weights(pool))
  {
    TotalIsPositive(pool);
    total := Sum(Weights(pool));
  }

  lemma OccursOnce(s: seq<nat>, x: nat, n: nat)
    requires n > 0 && W.Occurrences(s, x) == n
    ensures x in s
  {
  }

  lemma NoOccurrence(s: seq<nat>, x: nat)
    requires x !in s
    ensures W.Occurrences(s, x) == 0
  {
  }

  /** The first position from i on that holds b or g. */
  lemma {:induction false} FirstPickOf(s: seq<nat>, b: nat, g: nat, i: nat) returns (k: nat)
    requires i < |s| && b in s[i..]
    ensures i <= k < |s| && (s[k] == b || s[k] == g)
    ensures forall j :: i <= j < k ==> s[j] != b && s[j] != g
    decreases |s| - i
  {
    if s[i] == b || s[i] == g {
      k := i;
    } else {
      assert s[i..] == [s[i]] + s[i + 1..];
      k := FirstPickOf(s, b, g, i + 1);
    }
  }

  /** k calls over the same candidates. */
  function Repeated(call: Call, k: nat): (calls: seq<Call>)
    ensures |calls| == k && forall i :: 0 <= i < k ==> calls[i] == call
  {
    seq(k, _ => call)
  }

  lemma {:induction false} RepeatedIsRun(st: RouterState, call: Call, k: nat, filter: RegionFilter, model: string)
    requires call.cs != []
    ensures RotateRun(st, Repeated(call, k), filter, model) == RepeatRun(st, call, filter, model, k)
  {
    hide Rotated;
    if k > 0 {
      RepeatedIsRun(st, call, k - 1, filter, model);
      assert Repeated(call, k)[..k - 1] == Repeated(call, k - 1);
    }
  }

  function PairOf(pool: seq<Account>, x: Account, y: Account): seq<Account> {
    Filter(pool, acc => acc == x || acc == y)
  }

  lemma PairMembers(pool: seq<Account>, x: Account, y: Account)
    requires x in pool && y in pool
    ensures Offered(pool, PairOf(pool, x, y)) && forall acc :: acc in PairOf(pool, x, y) <==> acc == x || acc == y
    ensures Ids(PairOf(pool, x, y)) == {x.id, y.id}
  {
    var keep: Account -> bool := acc => acc == x || acc == y;
    FilterMembers(pool, keep);
    assert PairOf(pool, x, y) == Filter(pool, keep);
    assert x in PairOf(pool, x, y) && y in PairOf(pool, x, y);
  }

  const QUIET_VIEW := View([], map[], map[], Config(false, 0.0, Sticky, 1, 1), 0)

  /** Weighted calls over the whole pool until b is picked, then one plain call between the
      goal and c. */
  function Round(pool: seq<Account>, goal: Account, c: Account, k: nat): seq<Call> {
    Repeated(Call(pool, QUIET_VIEW), k + 1) + [Call(PairOf(pool, goal, c), QUIET_VIEW)]
  }

  lemma NextIsBetween(b: string, c: string, goal: string, next: string)
    requires Between(b, c, goal) && b != "" && C.IsNext({goal, c}, b, next)
    ensures next == c
  {
    hide C.Less;
    C.LessTotal(b, c);
    C.LessTotal(b, goal);
    C.LessTotal(c, goal);
    assert c in {goal, c} && goal in {goal, c};
  }

  lemma PoolDiffers(pool: seq<Account>, goal: Account, b: Account)
    requires b in pool && goal in pool && Beats(pool, b, goal)
    ensures !Uniform(pool)
  {
    if Weight(b) == Weight(goal) {
      var d :| d in pool && Weight(d) != Weight(goal);
    }
  }

  lemma Positions(pool: seq<Account>, b: Account, goal: Account) returns (i: nat, g: nat)
    requires b in pool && goal in pool && Beats(pool, b, goal)
    ensures i < |pool| && g < |pool| && pool[i] == b && pool[g] == goal
    ensures Weight(b) > Weight(goal) || (Weight(b) == Weight(goal) && i < g)
  {
    if Weight(b) > Weight(goal) {
      i :| 0 <= i < |pool| && pool[i] == b;
      g :| 0 <= g < |pool| && pool[g] == goal;
    } else {
      i, g :| 0 <= i < g < |pool| && pool[i] == b && pool[g] == goal;
    }
  }

  /** The weighted calls of a round. */
  lemma WeightedPart(pool: seq<Account>, goal: Account, b: Account, k: nat, i: nat, g: nat, st: RouterState,
                     filter: RegionFilter, model: string)
    requires DistinctIds(pool) && !Uniform(pool) && PicksFirst(pool, goal, b, k, i, g)
    requires RouteKey(filter, model) !in st.wrr
    ensures var calls := Repeated(Call(pool, QUIET_VIEW), k + 1);
            && PassedOver(pool, goal, st, calls, filter, model)
            && CursorOf(RotateRun(st, calls, filter, model).1, RouteKey(filter, model)) == b.id
  {
    hide Rotated, RotateRun, RepeatRun, W.Picked, Uniform, Offered, Names, DistinctIds;
    var call := Call(pool, QUIET_VIEW);
    var calls := Repeated(call, k + 1);
    PoolIsOffered(pool);
    RouterRunsWeighted(st, call, filter, model, k + 1);
    RepeatedIsRun(st, call, k + 1, filter, model);
    var ids := RotateRun(st, calls, filter, model).0;
    NamesAvoid(ids, pool, W.Picked(pool, k + 1), g);
    StateBefore(st, calls, k, filter, model);
    assert calls[..k + 1] == calls;
    CallLeaves(Before(st, calls, k, filter, model), call, filter, model);
  }

  lemma NamesAvoid(ids: seq<string>, pool: seq<Account>, positions: seq<nat>, g: nat)
    requires DistinctIds(pool) && Names(ids, pool, positions) && g < |pool| && g !in positions
    ensures forall j :: 0 <= j < |ids| ==> ids[j] != pool[g].id && ids[j] == pool[positions[j]].id
  {
    forall j | 0 <= j < |ids|
      ensures ids[j] != pool[g].id
    {
      assert positions[j] in positions;
    }
  }

  /** The plain call of a round picks c and forgets the running weights. */
  lemma PlainPart(pool: seq<Account>, goal: Account, b: Account, c: Account, st: RouterState,
                  filter: RegionFilter, model: string)
    requires DistinctIds(pool) && goal in pool && "" !in Ids(pool) && Blocks(pool, goal, b, c)
    requires CursorOf(st, RouteKey(filter, model)) == b.id
    ensures var calls := [Call(PairOf(pool, goal, c), QUIET_VIEW)];
            && PassedOver(pool, goal, st, calls, filter, model)
            && RouteKey(filter, model) !in RotateRun(st, calls, filter, model).1.wrr
  {
    hide Rotated, RotateRun, C.Less, Weight, C.IsNext;
    var call := Call(PairOf(pool, goal, c), QUIET_VIEW);
    PairMembers(pool, goal, c);
    IdOf(b, pool);
    assert goal in call.cs && call.cs[0] in call.cs && PlainCall(call);
    PlainStep(st, call, filter, model);
    CallLeaves(st, call, filter, model);
    var next := Rotated(st, call.cs, filter, model, call.view).0;
    NextIsBetween(b.id, c.id, goal.id, next.id);
    BetweenDiffer(b.id, c.id, goal.id);
    StateBefore(st, [call], 0, filter, model);
    FromTheStart(st, [call], filter, model);
    assert [call][..1] == [call];
  }

  lemma BetweenDiffer(x: string, y: string, z: string)
    requires Between(x, y, z)
    ensures y != z
  {
    hide C.Less;
    C.LessTotal(y, z);
    C.LessTotal(x, y);
  }

  /** From any state without running weights for the route, runs of every length pass a
      blocked goal over. */
  lemma {:induction false} BlockedRun(pool: seq<Account>, goal: Account, b: Account, c: Account, st: RouterState,
                                      n: nat, filter: RegionFilter, model: string) returns (calls: seq<Call>)
    requires DistinctIds(pool) && goal in pool && "" !in Ids(pool) && Blocks(pool, goal, b, c)
    requires RouteKey(filter, model) !in st.wrr
    ensures |calls| == n && PassedOver(pool, goal, st, calls, filter, model)
    decreases n
  {
    hide RotateRun, Offers, Blocks, DistinctIds, Ids;
    var k, i, g := RoundLength(pool, goal, b, c);
    var round := Round(pool, goal, c, k);
    OneRound(pool, goal, b, c, k, i, g, st, filter, model);
    if n <= |round| {
      calls := round[..n];
      PassedOverWindow(pool, goal, st, round, 0, n, filter, model);
      FromTheStart(st, round, filter, model);
      assert round[0..n] == calls;
    } else {
      var rest := BlockedRun(pool, goal, b, c, RotateRun(st, round, filter, model).1, n - |round|, filter, model);
      calls := round + rest;
      PassedOverJoins(pool, goal, st, round, rest, filter, model);
    }
  }

  /** How many weighted calls it takes until b is picked, and where the two stand. */
  lemma RoundLength(pool: seq<Account>, goal: Account, b: Account, c: Account) returns (k: nat, i: nat, g: nat)
    requires DistinctIds(pool) && goal in pool && Blocks(pool, goal, b, c)
    ensures PicksFirst(pool, goal, b, k, i, g)
  {
    i, g := Positions(pool, b, goal);
    k := PickedFirst(pool, i, g);
  }

  ghost predicate PicksFirst(pool: seq<Account>, goal: Account, b: Account, k: nat, i: nat, g: nat) {
    && i < |pool| && g < |pool| && pool[i] == b && pool[g] == goal
    && W.Picked(pool, k + 1)[k] == i && g !in W.Picked(pool, k + 1)
  }

  lemma OneRound(pool: seq<Account>, goal: Account, b: Account, c: Account, k: nat, i: nat, g: nat, st: RouterState,
                 filter: RegionFilter, model: string)
    requires DistinctIds(pool) && goal in pool && "" !in Ids(pool) && Blocks(pool, goal, b, c)
    requires PicksFirst(pool, goal, b, k, i, g) && RouteKey(filter, model) !in st.wrr
    ensures PassedOver(pool, goal, st, Round(pool, goal, c, k), filter, model)
    ensures RouteKey(filter, model) !in RotateRun(st, Round(pool, goal, c, k), filter, model).1.wrr
  {
    hide RotateRun, Offers, Ids, PassedOver, Beats, Between, DistinctIds, Uniform, PicksFirst, Weight, RouteKey;
    PoolDiffers(pool, goal, b);
    WeightedPart(pool, goal, b, k, i, g, st, filter, model);
    var xs, ys := Repeated(Call(pool, QUIET_VIEW), k + 1), [Call(PairOf(pool, goal, c), QUIET_VIEW)];
    PassedOverIsRun(pool, goal, st, xs, filter, model);
    var mid := RotateRun(st, xs, filter, model).1;
    PlainPart(pool, goal, b, c, mid, filter, model);
    PassedOverIsRun(pool, goal, mid, ys, filter, model);
    PassedOverJoins(pool, goal, st, xs, ys, filter, model);
    RunSplits(st, xs, ys, filter, model);
  }

  lemma PassedOverIsRun(pool: seq<Account>, goal: Account, st: RouterState, calls: seq<Call>,
                        filter: RegionFilter, model: string)
    requires PassedOver(pool, goal, st, calls, filter, model)
    ensures NonEmpty(calls)
  {
  }

  // ---- The exact condition ----

  /** With fixed weights, distinct non-empty IDs and any strategy but least-inflight, an
      account can be passed over for ever exactly when the pool holds a b that weighted
      calls pick ahead of it, and a c of its own weight that lies between b and it in ID
      order. */
  lemma CanStarveIff(pool: seq<Account>, goal: Account, filter: RegionFilter, model: string)
    requires DistinctIds(pool) && goal in pool && "" !in Ids(pool)
    ensures CanStarve(pool, goal, filter, model) <==> exists b, c :: Blocks(pool, goal, b, c)
  {
    hide Blocks, PassedOver, Enough, Ids, DistinctIds;
    if CanStarve(pool, goal, filter, model) {
      var st :| StarvesFrom(pool, goal, st, filter, model);
      var n := Enough(pool, goal, RunningOf(st, RouteKey(filter, model)));
      assert CanPassOver(pool, goal, st, n, filter, model);
      var calls :| |calls| == n && PassedOver(pool, goal, st, calls, filter, model);
      var b, c := LongRunNamesBlockers(pool, goal, st, calls, filter, model);
    }
    if b, c :| Blocks(pool, goal, b, c) {
      var st := RouterState(map[], map[], map[]);
      forall n: nat
        ensures CanPassOver(pool, goal, st, n, filter, model)
      {
        var calls := BlockedRun(pool, goal, b, c, st, n, filter, model);
      }
      assert StarvesFrom(pool, goal, st, filter, model);
    }
  }

  /** Otherwise every run picks it within a number of calls that depends on the pool and
      on the running weights at the start only. */
  lemma PickedWithin(pool: seq<Account>, goal: Account, st: RouterState, calls: seq<Call>,
                     filter: RegionFilter, model: string)
    requires DistinctIds(pool) && goal in pool && "" !in Ids(pool)
    requires AllOffer(pool, goal, calls) && |calls| >= Enough(pool, goal, RunningOf(st, RouteKey(filter, model)))
    requires forall b, c :: !Blocks(pool, goal, b, c)
    ensures NonEmpty(calls) && exists k :: 0 <= k < |calls| && RotateRun(st, calls, filter, model).0[k] == goal.id
  {
    hide Blocks, Enough, Ids, DistinctIds, RotateRun, Offered;
    AllNonEmpty(pool, goal, calls);
    if forall k :: 0 <= k < |calls| ==> RotateRun(st, calls, filter, model).0[k] != goal.id {
      var b, c := LongRunNamesBlockers(pool, goal, st, calls, filter, model);
      assert false;
    }
  }

  lemma AllNonEmpty(pool: seq<Account>, goal: Account, calls: seq<Call>)
    requires AllOffer(pool, goal, calls)
    ensures NonEmpty(calls)
  {
    forall k | 0 <= k < |calls|
      ensures calls[k].cs != []
    {
      assert Offers(pool, goal, calls[k]);
    }
  }

  /** Three accounts in ID order are enough: the first can be passed over for ever when the
      second is heavier and the third is as light. */
  lemma MixedCallsStarve(a: Account, b: Account, c: Account, filter: RegionFilter, model: string)
    requires a.id != "" && C.Less(a.id, b.id) && C.Less(b.id, c.id)
    requires Weight(a) == Weight(c) < Weight(b)
    ensures CanStarve([a, b, c], a, filter, model)
  {
    hide C.Less, Weight, CanStarve;
    C.LessTotal(a.id, b.id);
    C.LessTotal(b.id, c.id);
    C.LessTransitive(a.id, b.id, c.id);
    C.LessTotal(a.id, c.id);
    NothingBelowEmpty(a.id);
    NothingBelowEmpty(b.id);
    var pool := [a, b, c];
    assert Ids(pool) == {a.id, b.id, c.id};
    assert Blocks(pool, a, b, c);
    CanStarveIff(pool, a, filter, model);
  }

  lemma NothingBelowEmpty(x: string)
    ensures !C.Less(x, "")
  {
  }

  /** Nobody can be passed over for ever in a pool of equal weights, or of distinct ones. */
  lemma EvenPoolsAreFair(pool: seq<Account>, goal: Account, filter: RegionFilter, model: string)
    requires DistinctIds(pool) && goal in pool && "" !in Ids(pool)
    requires Uniform(pool) || forall x, y :: x in pool && y in pool && x != y ==> Weight(x) != Weight(y)
    ensures !CanStarve(pool, goal, filter, model)
  {
    hide CanStarve, Weight;
    CanStarveIff(pool, goal, filter, model);
    if b, c :| Blocks(pool, goal, b, c) {
      BetweenDiffer(b.id, c.id, goal.id);
      assert false;
    }
  }
}
