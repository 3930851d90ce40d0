/** Fairness of the router's own decisions: what is proved of rotations over given
    candidates, carried to runs of decisions over the pool as each of them sees it. */
module Decisions {
  import opened Common
  import opened Accounts
  import opened Candidates
  import opened RouterSpec
  import opened Starvation
  import W = WeightedRotation

  /** One request to route. */
  datatype Ask = Ask(stickyKey: string, exclude: set<string>, view: View)

  /** The route the requests share. */
  datatype Route = Route(filter: RegionFilter, model: string) {
    ghost function Candidates(ask: Ask): seq<Account> {
      Filter(ask.view.accounts, CandidateTest(ask.view, model, filter, ask.exclude))
    }

    ghost function Decide(st: RouterState, ask: Ask): (Option<Account>, RouterState) {
      Picked(st, ask.stickyKey, model, filter, ask.exclude, ask.view)
    }

    /** The decision is made by rotating over the candidates. */
    ghost predicate Rotates(st: RouterState, ask: Ask) {
      Candidates(ask) != [] && !Reuses(st, ask.stickyKey, model, filter, ask.exclude, ask.view)
    }

    function Key(): string {
      RouteKey(filter, model)
    }
  }

  /** The state after a run of decisions. */
  ghost function StateAfter(route: Route, st: RouterState, asks: seq<Ask>): RouterState {
    if |asks| == 0 then st
    else route.Decide(StateAfter(route, st, asks[..|asks| - 1]), asks[|asks| - 1]).1
  }

  /** What decision k answers. */
  ghost function Answer(route: Route, st: RouterState, asks: seq<Ask>, k: nat): Option<Account>
    requires k < |asks|
  {
    route.Decide(StateAfter(route, st, asks[..k]), asks[k]).0
  }

  /** Decision k rotates. */
  ghost predicate RotatesAt(route: Route, st: RouterState, asks: seq<Ask>, k: nat)
    requires k < |asks|
  {
    route.Rotates(StateAfter(route, st, asks[..k]), asks[k])
  }

  /** The decisions that rotate, by their position in the run. */
  ghost function Rotating(route: Route, st: RouterState, asks: seq<Ask>): (ks: seq<nat>)
    ensures forall i :: 0 <= i < |ks| ==> ks[i] < |asks|
  {
    if |asks| == 0 then []
    else
      var n := |asks| - 1;
      Rotating(route, st, asks[..n]) + if RotatesAt(route, st, asks, n) then [n] else []
  }

  lemma PrefixAlike(route: Route, st: RouterState, asks: seq<Ask>, n: nat, k: nat)
    requires k < n <= |asks|
    ensures RotatesAt(route, st, asks[..n], k) <==> RotatesAt(route, st, asks, k)
    ensures Answer(route, st, asks[..n], k) == Answer(route, st, asks, k)
  {
    assert asks[..n][..k] == asks[..k];
  }

  lemma {:induction false} RotatingRotate(route: Route, st: RouterState, asks: seq<Ask>)
    ensures var ks := Rotating(route, st, asks);
      && (forall i :: 0 <= i < |ks| ==> RotatesAt(route, st, asks, ks[i]))
      && (forall k :: 0 <= k < |asks| ==> (RotatesAt(route, st, asks, k) <==> k in ks))
  {
    hide RotatesAt;
    if |asks| > 0 {
      var n := |asks| - 1;
      RotatingRotate(route, st, asks[..n]);
      forall k | 0 <= k < n
        ensures RotatesAt(route, st, asks[..n], k) <==> RotatesAt(route, st, asks, k)
      {
        PrefixAlike(route, st, asks, n, k);
      }
    }
  }

  /** As calls of the rotation. */
  ghost function CallsOf(route: Route, asks: seq<Ask>, ks: seq<nat>): (calls: seq<Call>)
    requires forall i :: 0 <= i < |ks| ==> ks[i] < |asks|
    ensures |calls| == |ks|
    ensures forall i :: 0 <= i < |ks| ==> calls[i] == Call(route.Candidates(asks[ks[i]]), asks[ks[i]].view)
  {
    seq(|ks|, i requires 0 <= i < |ks| => Call(route.Candidates(asks[ks[i]]), asks[ks[i]].view))
  }

  predicate SameRotation(x: RouterState, y: RouterState) {
    x.cursor == y.cursor && x.wrr == y.wrr
  }

  lemma CallsNotEmpty(route: Route, st: RouterState, asks: seq<Ask>)
    ensures forall call :: call in CallsOf(route, asks, Rotating(route, st, asks)) ==> call.cs != []
  {
    hide Rotating, Reuses, Filter;
    var ks := Rotating(route, st, asks);
    RotatingRotate(route, st, asks);
    var calls := CallsOf(route, asks, ks);
    forall i | 0 <= i < |calls|
      ensures calls[i].cs != []
    {
      assert RotatesAt(route, st, asks, ks[i]);
    }
  }

  /** What one decision does to the rotation. */
  lemma DecisionStep(route: Route, before: RouterState, mid: RouterState, ask: Ask)
    requires SameRotation(before, mid)
    ensures var (res, after) := route.Decide(before, ask);
      if route.Rotates(before, ask) then
        var (acc, next) := Rotated(mid, route.Candidates(ask), route.filter, route.model, ask.view);
        res == Some(acc) && SameRotation(next, after)
      else SameRotation(mid, after)
  {
    hide Rotated, Picked, Reuses, Filter;
    DecisionMeaning(before, ask.stickyKey, route.model, route.filter, ask.exclude, ask.view);
    if route.Candidates(ask) != [] {
      RotatedIgnoresSticky(before, mid, route.Candidates(ask), route.filter, route.model, ask.view);
    }
  }

  /** The decisions that rotate form a run of the rotation, whatever the others do. */
  lemma {:induction false} DecisionsRotate(route: Route, st: RouterState, asks: seq<Ask>)
    ensures var ks := Rotating(route, st, asks);
      var calls := CallsOf(route, asks, ks);
      && (forall i :: 0 <= i < |calls| ==> calls[i].cs != [])
      && var (ids, end) := RotateRun(st, calls, route.filter, route.model);
         && SameRotation(end, StateAfter(route, st, asks))
         && forall i :: 0 <= i < |ks| ==>
              Answer(route, st, asks, ks[i]).Some? && Answer(route, st, asks, ks[i]).value.id == ids[i]
  {
    hide Rotated, RotateRun, Picked, Reuses, Filter, Route.Decide, Route.Rotates, Route.Candidates;
    var ks := Rotating(route, st, asks);
    var calls := CallsOf(route, asks, ks);
    CallsNotEmpty(route, st, asks);
    RunStep(st, calls, route.filter, route.model);
    if |asks| > 0 {
      var n := |asks| - 1;
      var js := Rotating(route, st, asks[..n]);
      DecisionsRotate(route, st, asks[..n]);
      forall i | 0 <= i < |js|
        ensures Answer(route, st, asks[..n], js[i]) == Answer(route, st, asks, js[i])
      {
        PrefixAlike(route, st, asks, n, js[i]);
      }
      var earlier := CallsOf(route, asks, js);
      assert CallsOf(route, asks[..n], js) == earlier;
      var mid := RotateRun(st, earlier, route.filter, route.model).1;
      DecisionStep(route, StateAfter(route, st, asks[..n]), mid, asks[n]);
      if RotatesAt(route, st, asks, n) {
        assert calls[..|js|] == earlier;
      } else {
        assert calls == earlier;
      }
    }
  }

  // ---- No starvation ----

  /** The account is a candidate of every decision, and the strategy is not least-inflight. */
  ghost predicate AlwaysCandidate(route: Route, asks: seq<Ask>, acc: Account) {
    forall k :: 0 <= k < |asks| ==>
      && IsCandidate(acc, asks[k].view, route.model, route.filter, asks[k].exclude)
      && asks[k].view.config.strategy != LeastInFlight
  }

  lemma CandidatesMembers(route: Route, ask: Ask)
    ensures forall acc :: acc in route.Candidates(ask) <==>
              IsCandidate(acc, ask.view, route.model, route.filter, ask.exclude)
  {
    hide IsCandidate;
    forall acc
      ensures acc in route.Candidates(ask) <==> IsCandidate(acc, ask.view, route.model, route.filter, ask.exclude)
    {
      PickFromMembers(ask.view, route.model, route.filter, ask.exclude, acc);
      PickFromIsFilter(ask.view, route.model, route.filter, ask.exclude);
    }
  }

  /** All candidates of a decision weigh the same. */
  ghost predicate EvenCandidates(route: Route, ask: Ask) {
    forall x, y :: x in route.Candidates(ask) && y in route.Candidates(ask) ==> Weight(x) == Weight(y)
  }

  /** No starvation of the router's decisions under equal weights: an account that is a
      candidate of every decision is picked by one of the first decisions that rotate, as
      many as there are IDs ever offered, whatever is answered from bindings in between. */
  lemma DecisionsNeverStarve(route: Route, st: RouterState, asks: seq<Ask>, universe: set<string>, acc: Account)
    requires AlwaysCandidate(route, asks, acc) && "" !in universe
    requires forall k :: 0 <= k < |asks| ==> EvenCandidates(route, asks[k])
    requires forall k :: 0 <= k < |asks| ==> Ids(route.Candidates(asks[k])) <= universe
    requires |Rotating(route, st, asks)| >= |universe| > 0
    ensures exists i :: 0 <= i < |universe| && var res := Answer(route, st, asks, Rotating(route, st, asks)[i]);
                        res.Some? && res.value.id == acc.id
  {
    hide RotateRun, Answer, StateAfter, Rotating, RotatesAt, Weight, Route.Candidates, IsCandidate;
    var ks := Rotating(route, st, asks);
    var calls := CallsOf(route, asks, ks);
    DecisionsRotate(route, st, asks);
    forall i | 0 <= i < |calls|
      ensures PlainCall(calls[i]) && acc.id in Ids(calls[i].cs) && Ids(calls[i].cs) <= universe
    {
      CandidatesMembers(route, asks[ks[i]]);
      assert EvenCandidates(route, asks[ks[i]]);
      IdOf(acc, calls[i].cs);
    }
    RouterNeverStarves(st, calls, route.filter, route.model, universe, acc.id);
    var i :| 0 <= i < |universe| && RotateRun(st, calls, route.filter, route.model).0[i] == acc.id;
    assert Answer(route, st, asks, ks[i]).Some?;
  }

  /** Under round robin every decision with a candidate rotates. */
  lemma {:induction false} RoundRobinRotates(route: Route, st: RouterState, asks: seq<Ask>)
    requires forall k :: 0 <= k < |asks| ==>
      asks[k].view.config.strategy == RoundRobin && route.Candidates(asks[k]) != []
    ensures |Rotating(route, st, asks)| == |asks|
    ensures forall k :: 0 <= k < |asks| ==> Rotating(route, st, asks)[k] == k
  {
    hide Route.Candidates;
    if |asks| > 0 {
      RoundRobinRotates(route, st, asks[..|asks| - 1]);
    }
  }

  /** With any weights, over decisions that see the same pool: unless the pool blocks the
      account, it is picked by one of the decisions that rotate as soon as they are enough. */
  lemma PoolNeverPassesOver(route: Route, st: RouterState, asks: seq<Ask>, pool: seq<Account>, acc: Account)
    requires AlwaysCandidate(route, asks, acc) && forall k :: 0 <= k < |asks| ==> asks[k].view.accounts == pool
    requires DistinctIds(pool) && acc in pool && "" !in Ids(pool)
    requires forall b, c :: !Blocks(pool, acc, b, c)
    requires |Rotating(route, st, asks)| >= Enough(pool, acc, RunningOf(st, route.Key()))
    ensures exists k :: 0 <= k < |asks| && var res := Answer(route, st, asks, k); res.Some? && res.value.id == acc.id
  {
    hide RotateRun, Answer, StateAfter, Rotating, RotatesAt, IsCandidate, Blocks, Enough, Ids, DistinctIds;
    var ks := Rotating(route, st, asks);
    var calls := CallsOf(route, asks, ks);
    DecisionsRotate(route, st, asks);
    forall i | 0 <= i < |calls|
      ensures Offers(pool, acc, calls[i])
    {
      CandidatesMembers(route, asks[ks[i]]);
      var ask := asks[ks[i]];
      assert calls[i].cs == Filter(pool, CandidateTest(ask.view, route.model, route.filter, ask.exclude));
    }
    PickedWithin(pool, acc, st, calls, route.filter, route.model);
    var i :| 0 <= i < |calls| && RotateRun(st, calls, route.filter, route.model).0[i] == acc.id;
    assert Answer(route, st, asks, ks[i]).Some?;
  }

  // ---- Exact fairness ----

  /** A call only matters by its candidates and by whether the strategy is least-inflight. */
  lemma {:induction false} SameCandidatesRepeat(st: RouterState, calls: seq<Call>, call: Call, filter: RegionFilter,
                                                model: string)
    requires call.cs != [] && call.view.config.strategy != LeastInFlight
    requires forall i :: 0 <= i < |calls| ==> calls[i].cs == call.cs && calls[i].view.config.strategy != LeastInFlight
    ensures RotateRun(st, calls, filter, model) == RepeatRun(st, call, filter, model, |calls|)
  {
    hide W.Step;
    if |calls| > 0 {
      SameCandidatesRepeat(st, calls[..|calls| - 1], call, filter, model);
    }
  }

  /** Every decision has exactly these candidates. */
  ghost predicate SameCandidates(route: Route, asks: seq<Ask>, cs: seq<Account>) {
    forall k :: 0 <= k < |asks| ==> route.Candidates(asks[k]) == cs && asks[k].view.config.strategy != LeastInFlight
  }

  /** The IDs answered by the decisions that rotate. */
  ghost function RotatedIds(route: Route, st: RouterState, asks: seq<Ask>): (ids: seq<string>) {
    var ks := Rotating(route, st, asks);
    seq(|ks|, i requires 0 <= i < |ks| =>
      var res := Answer(route, st, asks, ks[i]); if res.Some? then res.value.id else "")
  }

  /** Exact fairness of the router's decisions: over decisions with the same candidates of
      unequal weights, from no running weights for the route, every window of total
      consecutive decisions that rotate picks each candidate exactly its weight times. */
  lemma DecisionsAreFair(route: Route, st: RouterState, asks: seq<Ask>, cs: seq<Account>, start: nat, j: nat)
    requires SameCandidates(route, asks, cs) && DistinctIds(cs) && cs != [] && !Uniform(cs) && j < |cs|
    requires route.Key() !in st.wrr && Sum(Weights(cs)) >= 0
    requires start + Sum(Weights(cs)) == |Rotating(route, st, asks)|
    ensures multiset(RotatedIds(route, st, asks)[start..])[cs[j].id] == Weight(cs[j])
  {
    hide RotateRun, RepeatRun, Answer, StateAfter, Rotating, RotatesAt, Route.Candidates, Uniform, Sum, DistinctIds;
    var ks := Rotating(route, st, asks);
    var calls := CallsOf(route, asks, ks);
    DecisionsRotate(route, st, asks);
    var ids := RotateRun(st, calls, route.filter, route.model).0;
    assert RotatedIds(route, st, asks) == ids;
    WeightsPositive(cs);
    var call := calls[0];
    SameCandidatesRepeat(st, calls, call, route.filter, route.model);
    RouterIsFair(st, call, route.filter, route.model, start, j);
  }

  lemma WeightsPositive(cs: seq<Account>)
    requires cs != []
    ensures Sum(Weights(cs)) > 0
  {
    W.WeightsPositive(cs);
    W.SumOfPositives(Weights(cs), |cs|);
  }
}
