/** The router's state and what its operations make of it. */
module RouterSpec {
  import opened Common
  import opened Accounts
  import opened Candidates
  import W = WeightedRotation
  import C = CursorRotation

  const STICKY_TTL := 3600 * SECOND
  const STICKY_CAPACITY := 10_000

  datatype Binding = Binding(accountId: string, count: int, expiresAt: int)

  datatype RouterState = RouterState(
    sticky: map<string, Binding>, cursor: map<string, string>, wrr: map<string, W.Running>)

  function RouteKey(filter: RegionFilter, model: string): string {
    FilterName(filter) + "|" + model
  }

  function CursorOf(st: RouterState, key: string): string {
    if key in st.cursor then st.cursor[key] else ""
  }

  function RunningOf(st: RouterState, key: string): W.Running {
    if key in st.wrr then st.wrr[key] else map[]
  }

  /** Position of the first candidate with the fewest requests in flight among the first n. */
  function LeastBusy(cs: seq<Account>, view: View, n: nat): (i: nat)
    requires 0 < n <= |cs|
    ensures i < n
    ensures forall j :: 0 <= j < n ==> InFlight(cs[i], view) <= InFlight(cs[j], view)
    ensures forall j :: 0 <= j < i ==> InFlight(cs[i], view) < InFlight(cs[j], view)
  {
    if n == 1 then 0
    else
      var best := LeastBusy(cs, view, n - 1);
      if InFlight(cs[n - 1], view) < InFlight(cs[best], view) then n - 1 else best
  }

  function FirstAbove(sorted: seq<Account>, last: string, n: nat): (i: nat)
    requires n <= |sorted|
    ensures i <= n && forall j :: 0 <= j < i ==> !C.Less(last, sorted[j].id)
    ensures i < n ==> C.Less(last, sorted[i].id)
  {
    if n == 0 then 0
    else
      var i := FirstAbove(sorted, last, n - 1);
      if i < n - 1 || C.Less(last, sorted[n - 1].id) then i else n
  }

  function ResumeIndex(sorted: seq<Account>, last: string): (idx: nat)
    requires sorted != []
    ensures C.IsResumeIndex(sorted, last, idx)
  {
    var i := FirstAbove(sorted, last, |sorted|);
    if last == "" || i == |sorted| then 0 else i
  }

  /** Rotation over non-empty candidates. */
  function Rotated(st: RouterState, cs: seq<Account>, filter: RegionFilter, model: string,
      view: View): (res: (Account, RouterState))
    requires cs != []
    ensures res.0 in cs
    ensures res.1.sticky == st.sticky
    ensures res.1.cursor == st.cursor[RouteKey(filter, model) := res.0.id]
  {
    var key := RouteKey(filter, model);
    if view.config.strategy == LeastInFlight then
      var best := cs[LeastBusy(cs, view, |cs|)];
      (best, st.(cursor := st.cursor[key := best.id]))
    else if !Uniform(cs) then
      var (i, running) := W.Step(RunningOf(st, key), cs);
      (cs[i], st.(cursor := st.cursor[key := cs[i].id], wrr := st.wrr[key := running]))
    else
      C.SortByIdSorts(cs);
      var sorted := C.SortById(cs);
      var idx := ResumeIndex(sorted, CursorOf(st, key));
      C.ResumeIndexIsNext(cs, CursorOf(st, key), idx);
      (sorted[idx], st.(cursor := st.cursor[key := sorted[idx].id], wrr := st.wrr - {key}))
  }

  function AccountById(cs: seq<Account>, id: string): (acc: Account)
    requires id in Ids(cs)
    ensures acc in cs && acc.id == id
  {
    if cs[0].id == id then cs[0] else AccountById(cs[1..], id)
  }

  /** What the sticky table does for a request: serve it from the binding, or drop
      the binding (expired, out of quota, or its account not available), or nothing. */
  datatype StickyVerdict = Reuse(binding: Binding) | Drop | Absent

  function Consult(st: RouterState, stickyKey: string, from: seq<Account>, view: View): StickyVerdict {
    if view.config.strategy == RoundRobin || stickyKey !in st.sticky then Absent
    else
      var b := st.sticky[stickyKey];
      if view.now > b.expiresAt then Drop
      else if b.accountId !in Ids(from) then Drop
      else if view.config.stickyLimit > 0 && b.count + 1 > view.config.stickyLimit then Drop
      else Reuse(b.(count := b.count + 1))
  }

  /** One routing decision. */
  function Picked(st: RouterState, stickyKey: string, model: string, filter: RegionFilter, exclude: set<string>,
      view: View)
    : (res: (Option<Account>, RouterState))
  {
    var from := PickFrom(view, model, filter, exclude);
    if from == [] then (None, st)
    else
      match Consult(st, stickyKey, from, view)
      case Reuse(b) => (Some(AccountById(from, b.accountId)), st.(sticky := st.sticky[stickyKey := b]))
      case Drop =>
        var (acc, st') := Rotated(st.(sticky := st.sticky - {stickyKey}), from, filter, model, view);
        (Some(acc), st')
      case Absent =>
        var (acc, st') := Rotated(st, from, filter, model, view);
        (Some(acc), st')
  }

  /** A success refreshes the key's live binding to the same account. */
  predicate Refreshes(st: RouterState, stickyKey: string, accountId: string, now: int) {
    stickyKey in st.sticky && now < st.sticky[stickyKey].expiresAt && st.sticky[stickyKey].accountId == accountId
  }

  /** The bindings not yet past their deadline. */
  function Live(sticky: map<string, Binding>, now: int): map<string, Binding> {
    map k | k in sticky && sticky[k].expiresAt >= now :: sticky[k]
  }

  /** Pruning keeps exactly the live bindings if that makes room, and otherwise
      some of them, one short of the capacity. */
  ghost predicate Prunes(before: map<string, Binding>, now: int, after: map<string, Binding>) {
    var live := Live(before, now);
    && (forall k :: k in after ==> k in live && after[k] == live[k])
    && (if |live| < STICKY_CAPACITY then after == live else |after| == STICKY_CAPACITY - 1)
  }

  /** A full table is pruned before a binding is added. */
  ghost predicate MakesRoom(before: map<string, Binding>, now: int, kept: map<string, Binding>) {
    if |before| >= STICKY_CAPACITY then Prunes(before, now, kept) else kept == before
  }

  /** The outcomes of recording a success. */
  ghost predicate Binds(st: RouterState, stickyKey: string, accountId: string, now: int, st': RouterState) {
    && st'.cursor == st.cursor && st'.wrr == st.wrr
    && if stickyKey == "" || accountId == "" then st'.sticky == st.sticky
       else if Refreshes(st, stickyKey, accountId, now) then
         st'.sticky == st.sticky[stickyKey := st.sticky[stickyKey].(expiresAt := now + STICKY_TTL)]
       else
         exists kept ::
           MakesRoom(st.sticky, now, kept) && st'.sticky == kept[stickyKey := Binding(accountId, 1, now + STICKY_TTL)]
  }

  // ---- Properties of one decision ----

  /** Pick soundness: a picked account comes out of the candidate pipeline, hence is
      in the region base, not excluded, not cooling, not exhausted, and low on
      credit only when the threshold alone rules everybody out. */
  lemma PickSound(st: RouterState, stickyKey: string, model: string, filter: RegionFilter, exclude: set<string>,
      view: View)
    requires Picked(st, stickyKey, model, filter, exclude, view).0.Some?
    ensures var acc := Picked(st, stickyKey, model, filter, exclude, view).0.value;
            && acc in PickFrom(view, model, filter, exclude)
            && InRegionBase(acc, view.accounts, filter) && acc.id !in exclude
            && !Cooling(acc, view) && !Exhausted(acc, view)
            && (LowCredit(acc, view) ==> ThresholdAlone(view, filter, exclude))
  {
    hide Rotated, PickFrom;
    PickFromSound(view, model, filter, exclude, Picked(st, stickyKey, model, filter, exclude, view).0.value);
  }

  /** Pick completeness: no route exactly when nobody is usable and the relaxation
      does not cover every non-excluded account; the state is then unchanged. */
  lemma PickComplete(st: RouterState, stickyKey: string, model: string, filter: RegionFilter, exclude: set<string>,
      view: View)
    ensures Picked(st, stickyKey, model, filter, exclude, view).0.None? <==>
            (forall acc :: InRegionBase(acc, view.accounts, filter) ==> !Usable(acc, exclude, view, true)) &&
            !ThresholdAlone(view, filter, exclude)
    ensures Picked(st, stickyKey, model, filter, exclude, view).0.None? ==>
        Picked(st, stickyKey, model, filter, exclude, view).1 == st
  {
    hide Rotated, PickFrom;
    PickFromNonemptyIff(view, model, filter, exclude);
  }

  /** A conversation stays on its account while the binding is live, its account is
      a candidate and its quota is not used up; otherwise the binding is gone. */
  lemma StickyHoldsIff(st: RouterState, stickyKey: string, model: string, filter: RegionFilter, exclude: set<string>,
      view: View)
    requires stickyKey in st.sticky && view.config.strategy != RoundRobin
    requires PickFrom(view, model, filter, exclude) != []
    ensures var (acc, st') := Picked(st, stickyKey, model, filter, exclude, view);
            var b := st.sticky[stickyKey];
            (stickyKey in st'.sticky <==>
              && view.now <= b.expiresAt
              && b.accountId in Ids(PickFrom(view, model, filter, exclude))
              && (view.config.stickyLimit > 0 ==> b.count < view.config.stickyLimit)) &&
            (stickyKey in st'.sticky ==>
              && acc.value.id == b.accountId && st'.sticky[stickyKey] == b.(count := b.count + 1)
              && st'.cursor == st.cursor && st'.wrr == st.wrr)
  {
    hide PickFrom;
  }

  /** The least-inflight strategy picks the first candidate with the fewest requests in
      flight, and leaves the running weights alone. */
  lemma LeastInFlightPicks(st: RouterState, cs: seq<Account>, filter: RegionFilter, model: string, view: View)
    requires cs != [] && view.config.strategy == LeastInFlight
    ensures var (acc, st') := Rotated(st, cs, filter, model, view);
            && (exists i :: 0 <= i < |cs| && acc == cs[i]
                  && (forall j :: 0 <= j < |cs| ==> InFlight(cs[i], view) <= InFlight(cs[j], view))
                  && (forall j :: 0 <= j < i ==> InFlight(cs[i], view) < InFlight(cs[j], view)))
            && st' == st.(cursor := st.cursor[RouteKey(filter, model) := acc.id])
  {
    var i := LeastBusy(cs, view, |cs|);
    assert forall j :: 0 <= j < |cs| ==> InFlight(cs[i], view) <= InFlight(cs[j], view);
  }

  /** Distinct routes have distinct keys. */
  lemma RouteKeyIsInjective(f: RegionFilter, m: string, g: RegionFilter, n: string)
    requires RouteKey(f, m) == RouteKey(g, n)
    ensures f == g && m == n
  {
    var x, y := FilterName(f) + "|", FilterName(g) + "|";
    assert x + m == RouteKey(f, m) && y + n == RouteKey(g, n);
    NamesDiffer(f, g, m, n);
    assert (x + m)[|x|..] == m && (x + n)[|x|..] == n;
  }

  lemma NamesDiffer(f: RegionFilter, g: RegionFilter, m: string, n: string)
    requires FilterName(f) + "|" + m == FilterName(g) + "|" + n
    ensures f == g
  {
    var k := FilterName(f) + "|" + m;
    assert k[0] == FilterName(f)[0] == FilterName(g)[0];
  }

  /** So rotating one route leaves the cursor and the weights of every other one alone. */
  lemma RoutesAreSeparate(st: RouterState, cs: seq<Account>, f: RegionFilter, m: string, view: View,
                          g: RegionFilter, n: string)
    requires cs != [] && (f != g || m != n)
    ensures var st' := Rotated(st, cs, f, m, view).1;
            CursorOf(st', RouteKey(g, n)) == CursorOf(st, RouteKey(g, n)) &&
            RunningOf(st', RouteKey(g, n)) == RunningOf(st, RouteKey(g, n))
  {
    hide W.Step, C.SortById, ResumeIndex, RouteKey;
    if RouteKey(f, m) == RouteKey(g, n) {
      RouteKeyIsInjective(f, m, g, n);
    }
  }

  /** When a decision is answered from the sticky table. */
  ghost predicate Reuses(st: RouterState, stickyKey: string, model: string, filter: RegionFilter, exclude: set<string>,
                         view: View)
  {
    && view.config.strategy != RoundRobin && stickyKey in st.sticky
    && view.now <= st.sticky[stickyKey].expiresAt
    && (exists acc :: IsCandidate(acc, view, model, filter, exclude) && acc.id == st.sticky[stickyKey].accountId)
    && (view.config.stickyLimit > 0 ==> st.sticky[stickyKey].count < view.config.stickyLimit)
  }

  /** All that a decision does: it serves from a binding that holds; otherwise it rotates
      over the candidates and drops the binding, unless the strategy is round robin,
      which never looks at bindings. */
  lemma DecisionMeaning(st: RouterState, stickyKey: string, model: string, filter: RegionFilter, exclude: set<string>,
                        view: View)
    ensures var from := Filter(view.accounts, CandidateTest(view, model, filter, exclude));
            var (res, st') := Picked(st, stickyKey, model, filter, exclude, view);
            if from == [] then res == None && st' == st
            else if Reuses(st, stickyKey, model, filter, exclude, view) then
              var b := st.sticky[stickyKey];
              && res.Some? && res.value in from && res.value.id == b.accountId
              && st' == st.(sticky := st.sticky[stickyKey := b.(count := b.count + 1)])
            else
              var (acc, rotated) := Rotated(st, from, filter, model, view);
              && res == Some(acc) && st'.cursor == rotated.cursor && st'.wrr == rotated.wrr
              && st'.sticky == if view.config.strategy == RoundRobin then st.sticky else st.sticky - {stickyKey}
  {
    hide PickFrom, IsCandidate, Rotated;
    PickFromIsFilter(view, model, filter, exclude);
    var from := PickFrom(view, model, filter, exclude);
    forall acc
      ensures acc in from <==> IsCandidate(acc, view, model, filter, exclude)
    {
      PickFromMembers(view, model, filter, exclude, acc);
    }
    if from != [] {
      RotatedIgnoresSticky(st, st.(sticky := st.sticky - {stickyKey}), from, filter, model, view);
    }
    if stickyKey !in st.sticky {
      assert st.sticky - {stickyKey} == st.sticky;
    }
  }

  lemma RotatedIgnoresSticky(x: RouterState, y: RouterState, cs: seq<Account>, filter: RegionFilter, model: string,
                             view: View)
    requires cs != [] && x.cursor == y.cursor && x.wrr == y.wrr
    ensures var (a, x') := Rotated(x, cs, filter, model, view);
            var (b, y') := Rotated(y, cs, filter, model, view);
            a == b && x'.cursor == y'.cursor && x'.wrr == y'.wrr
  {
    hide W.Step, C.SortById, ResumeIndex;
  }

  // ---- Rotation over runs of the router ----

  datatype Call = Call(cs: seq<Account>, view: View)

  /** A call the plain cursor answers: equal weights, any strategy but least-inflight. */
  ghost predicate PlainCall(call: Call) {
    Uniform(call.cs) && call.view.config.strategy != LeastInFlight
  }

  /** The IDs picked by successive rotations, and the state they leave. */
  ghost function RotateRun(st: RouterState, calls: seq<Call>, filter: RegionFilter,
      model: string): (res: (seq<string>, RouterState))
    requires forall i :: 0 <= i < |calls| ==> calls[i].cs != []
    ensures |res.0| == |calls|
  {
    if |calls| == 0 then ([], st)
    else
      var n := |calls| - 1;
      var (ids, st') := RotateRun(st, calls[..n], filter, model);
      var (acc, st'') := Rotated(st', calls[n].cs, filter, model, calls[n].view);
      (ids + [acc.id], st'')
  }

  lemma PlainStep(st: RouterState, call: Call, filter: RegionFilter, model: string)
    requires call.cs != [] && PlainCall(call)
    ensures C.IsNext(Ids(call.cs), CursorOf(st, RouteKey(filter, model)),
        Rotated(st, call.cs, filter, model, call.view).0.id)
  {
    C.SortByIdSorts(call.cs);
    C.ResumeIndexIsNext(call.cs, CursorOf(st, RouteKey(filter, model)),
                        ResumeIndex(C.SortById(call.cs), CursorOf(st, RouteKey(filter, model))));
  }

  lemma {:induction false} PlainRunFollowsCursor(st: RouterState, calls: seq<Call>, sets: seq<set<string>>,
      filter: RegionFilter, model: string)
    requires forall i :: 0 <= i < |calls| ==> calls[i].cs != []
    requires forall i :: 0 <= i < |calls| ==> PlainCall(calls[i])
    requires |sets| == |calls| && forall i :: 0 <= i < |calls| ==> sets[i] == Ids(calls[i].cs)
    ensures C.CursorRun(sets, CursorOf(st, RouteKey(filter, model)), RotateRun(st, calls, filter, model).0)
    ensures CursorOf(RotateRun(st, calls, filter, model).1, RouteKey(filter, model)) ==
            C.CursorBefore(CursorOf(st, RouteKey(filter, model)), RotateRun(st, calls, filter, model).0, |calls|)
  {
    hide Rotated, C.IsNext;
    if |calls| > 0 {
      var n := |calls| - 1;
      PlainRunFollowsCursor(st, calls[..n], sets[..n], filter, model);
      PlainStep(RotateRun(st, calls[..n], filter, model).1, calls[n], filter, model);
      var start := CursorOf(st, RouteKey(filter, model));
      var before, now := RotateRun(st, calls[..n], filter, model).0, RotateRun(st, calls, filter, model).0;
      forall i | 0 <= i <= n
        ensures C.CallFollowsCursor(sets, start, now, i)
      {
        assert C.CursorBefore(start, now, i) == C.CursorBefore(start, before, i);
        if i < n {
          assert C.CallFollowsCursor(sets[..n], start, before, i);
        }
      }
    }
  }

  /** No starvation on the router: with equal weights, an account that is a candidate
      of every call is picked within as many consecutive calls as there are IDs ever
      offered, from any router state. */
  lemma RouterNeverStarves(st: RouterState, calls: seq<Call>, filter: RegionFilter, model: string,
      universe: set<string>, id: string)
    requires forall k :: 0 <= k < |calls| ==> calls[k].cs != []
    requires forall k :: 0 <= k < |calls| ==> PlainCall(calls[k])
    requires forall k :: 0 <= k < |calls| ==> id in Ids(calls[k].cs) && Ids(calls[k].cs) <= universe
    requires |calls| >= |universe| && |calls| > 0 && "" !in universe
    ensures exists k :: 0 <= k < |universe| && RotateRun(st, calls, filter, model).0[k] == id
  {
    hide C.CursorRun, RotateRun;
    var sets := seq(|calls|, i requires 0 <= i < |calls| => Ids(calls[i].cs));
    PlainRunFollowsCursor(st, calls, sets, filter, model);
    C.NoStarvation(universe, sets, CursorOf(st, RouteKey(filter, model)), RotateRun(st, calls, filter, model).0, id);
  }

  /** A call smooth weighted rotation answers. */
  ghost predicate WeightedCalls(calls: seq<Call>) {
    forall k :: 0 <= k < |calls| ==> IsWeighted(calls[k])
  }

  ghost predicate IsWeighted(call: Call) {
    W.ValidSet(call.cs) && !Uniform(call.cs) && call.view.config.strategy != LeastInFlight
  }

  function SetsOf(calls: seq<Call>): (sets: seq<seq<Account>>)
    ensures |sets| == |calls| && forall k :: 0 <= k < |calls| ==> sets[k] == calls[k].cs
  {
    seq(|calls|, k requires 0 <= k < |calls| => calls[k].cs)
  }

  /** Weighted rotations of the router are the weighted run over their candidates. */
  lemma {:induction false} WeightedRunFollowsChurn(st: RouterState, calls: seq<Call>, filter: RegionFilter,
      model: string)
    requires WeightedCalls(calls)
    ensures forall k :: 0 <= k < |calls| ==> calls[k].cs != [] && W.ValidSet(SetsOf(calls)[k])
    ensures var (ids, st') := RotateRun(st, calls, filter, model);
            var start := RunningOf(st, RouteKey(filter, model));
            && RunningOf(st', RouteKey(filter, model)) == W.AfterChurn(start, SetsOf(calls))
            && forall k :: 0 <= k < |calls| ==> W.PicksAt(start, SetsOf(calls), ids[k], k)
  {
    hide W.Step, Rotated, RotateRun, Uniform, W.ValidSet;
    forall k | 0 <= k < |calls|
      ensures calls[k].cs != [] && W.ValidSet(SetsOf(calls)[k])
    {
      assert IsWeighted(calls[k]);
      NotEmpty(calls[k].cs);
    }
    RunStep(st, calls, filter, model);
    if |calls| > 0 {
      var n := |calls| - 1;
      var sets, start := SetsOf(calls), RunningOf(st, RouteKey(filter, model));
      assert IsWeighted(calls[n]);
      WeightedRunFollowsChurn(st, calls[..n], filter, model);
      assert SetsOf(calls[..n]) == sets[..n];
      WeightedCall(RotateRun(st, calls[..n], filter, model).1, calls[n], filter, model);
      hide RouteKey, WeightedCalls;
      var ids := RotateRun(st, calls, filter, model).0;
      forall k | 0 <= k < |calls|
        ensures W.PicksAt(start, sets, ids[k], k)
      {
        if k < n {
          assert W.PicksAt(start, sets[..n], ids[k], k) && sets[..n][..k] == sets[..k];
        }
      }
    }
  }

  lemma NotEmpty(cs: seq<Account>)
    requires W.ValidSet(cs)
    ensures cs != []
  {
  }

  /** No starvation under unequal weights: from any router state and however the other
      candidates change, an account of weight at least w that is a candidate of every
      call is picked as soon as w times the number of calls exceeds the credit the
      candidates can ever hold, less what it starts with. */
  lemma WeightedRouterNeverStarves(st: RouterState, calls: seq<Call>, filter: RegionFilter, model: string, id: string,
      w: nat, bound: nat)
    requires WeightedCalls(calls)
    requires forall k :: 0 <= k < |calls| ==>
      id in Ids(calls[k].cs) && Weight(calls[k].cs[W.Position(calls[k].cs, id)]) >= w
    requires forall k :: 0 <= k < |calls| ==> |calls[k].cs| * Sum(Weights(calls[k].cs)) <= bound
    requires W.Credit(RunningOf(st, RouteKey(filter, model))) <= bound
    requires |calls| * w > bound - W.At(RunningOf(st, RouteKey(filter, model)), id)
    ensures forall k :: 0 <= k < |calls| ==> calls[k].cs != []
    ensures exists k :: 0 <= k < |calls| && RotateRun(st, calls, filter, model).0[k] == id
  {
    hide W.Credit, W.Step, RotateRun, W.ValidSet, Weight, W.AfterChurn;
    WeightedRunFollowsChurn(st, calls, filter, model);
    var sets, start := SetsOf(calls), RunningOf(st, RouteKey(filter, model));
    W.WeightedNeverStarves(start, sets, id, w, bound);
    var k :| 0 <= k < |calls| && W.PicksAt(start, sets, id, k);
    assert W.PicksAt(start, sets, RotateRun(st, calls, filter, model).0[k], k);
  }

  lemma RunStep(st: RouterState, calls: seq<Call>, filter: RegionFilter, model: string)
    requires forall i :: 0 <= i < |calls| ==> calls[i].cs != []
    ensures RotateRun(st, calls, filter, model) ==
            if |calls| == 0 then ([], st)
            else
              var n := |calls| - 1;
              var (ids, st') := RotateRun(st, calls[..n], filter, model);
              var (acc, st'') := Rotated(st', calls[n].cs, filter, model, calls[n].view);
              (ids + [acc.id], st'')
  {
  }

  /** k rotations over the same candidates. */
  ghost function RepeatRun(st: RouterState, call: Call, filter: RegionFilter, model: string,
      k: nat): (res: (seq<string>, RouterState))
    requires call.cs != []
    ensures |res.0| == k
  {
    if k == 0 then ([], st)
    else
      var (ids, st') := RepeatRun(st, call, filter, model, k - 1);
      var (acc, st'') := Rotated(st', call.cs, filter, model, call.view);
      (ids + [acc.id], st'')
  }

  lemma WeightedCall(st: RouterState, call: Call, filter: RegionFilter, model: string)
    requires call.cs != [] && !Uniform(call.cs) && call.view.config.strategy != LeastInFlight
    ensures var key := RouteKey(filter, model);
            var (acc, st') := Rotated(st, call.cs, filter, model, call.view);
            var (i, running) := W.Step(RunningOf(st, key), call.cs);
            acc == call.cs[i] && RunningOf(st', key) == running
  {
    hide W.Step;
  }

  /** ids names the accounts at the given candidate positions. */
  ghost predicate Names(ids: seq<string>, cs: seq<Account>, positions: seq<nat>) {
    && |ids| == |positions|
    && forall i :: 0 <= i < |ids| ==> positions[i] < |cs| && ids[i] == cs[positions[i]].id
  }

  lemma NamesExtend(ids: seq<string>, cs: seq<Account>, positions: seq<nat>, p: nat)
    requires Names(ids, cs, positions) && p < |cs|
    ensures Names(ids + [cs[p].id], cs, positions + [p])
  {
  }

  /** On a fixed candidate list of unequal weights the router performs the smooth
      weighted run from an absent entry, whatever else its state holds. */
  lemma {:induction false} RouterRunsWeighted(st: RouterState, call: Call, filter: RegionFilter, model: string, k: nat)
    requires call.cs != [] && !Uniform(call.cs) && call.view.config.strategy != LeastInFlight
    requires RouteKey(filter, model) !in st.wrr
    ensures var (ids, st') := RepeatRun(st, call, filter, model, k);
            && RunningOf(st', RouteKey(filter, model)) == W.After(call.cs, k)
            && Names(ids, call.cs, W.Picked(call.cs, k))
  {
    hide W.Step, Rotated, Uniform;
    if k > 0 {
      RouterRunsWeighted(st, call, filter, model, k - 1);
      var (before, st') := RepeatRun(st, call, filter, model, k - 1);
      WeightedCall(st', call, filter, model);
      hide Names;
      NamesExtend(before, call.cs, W.Picked(call.cs, k - 1), W.Step(W.After(call.cs, k - 1), call.cs).0);
    }
  }

  /** Exact fairness on the router: in every window of total consecutive calls each
      account is picked exactly its weight times. */
  lemma RouterIsFair(st: RouterState, call: Call, filter: RegionFilter, model: string, start: nat, i: nat)
    requires call.cs != [] && DistinctIds(call.cs) && !Uniform(call.cs) && call.view.config.strategy != LeastInFlight
    requires RouteKey(filter, model) !in st.wrr && i < |call.cs|
    ensures Sum(Weights(call.cs)) > 0
    ensures var ids := RepeatRun(st, call, filter, model, start + Sum(Weights(call.cs))).0;
            multiset(ids[start..])[call.cs[i].id] == Weight(call.cs[i])
  {
    hide Sum, W.After, W.Picked, Rotated, RepeatRun;
    W.ExactFairness(call.cs, start, i);
    var n: nat := start + Sum(Weights(call.cs));
    RouterRunsWeighted(st, call, filter, model, n);
    var ids, picked := RepeatRun(st, call, filter, model, n).0, W.Picked(call.cs, n);
    CountsCarryOver(call.cs, picked[start..], ids[start..], i);
  }

  lemma {:induction false} CountsCarryOver(cs: seq<Account>, positions: seq<nat>, ids: seq<string>, i: nat)
    requires DistinctIds(cs) && i < |cs| && Names(ids, cs, positions)
    ensures multiset(ids)[cs[i].id] == W.Occurrences(positions, i)
  {
    if ids != [] {
      var n := |ids| - 1;
      CountsCarryOver(cs, positions[..n], ids[..n], i);
      assert ids == ids[..n] + [ids[n]] && positions == positions[..n] + [positions[n]];
      assert positions[n] == i <==> cs[positions[n]].id == cs[i].id;
    }
  }
}
