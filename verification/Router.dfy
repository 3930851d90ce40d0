/** The request router: sticky bindings, rotation cursors and running weights are
    maps its methods update in place. */
module Router {
  import opened Common
  import opened Accounts
  import opened Candidates
  import opened RouterSpec
  import W = WeightedRotation
  import C = CursorRotation

  class Router {
    var sticky: map<string, Binding>
    var cursor: map<string, string>
    var wrr: map<string, W.Running>

    ghost function State(): RouterState
      reads this
    {
      RouterState(sticky, cursor, wrr)
    }

    constructor ()
      ensures State() == RouterState(map[], map[], map[])
    {
      sticky, cursor, wrr := map[], map[], map[];
    }

    /** The accounts in one region, in pool order. */
    static method FilterRegion(accounts: seq<Account>, region: string) returns (out: seq<Account>)
      ensures out == Filter(accounts, InRegion(region))
    {
      out := [];
      for i := 0 to |accounts|
        invariant out == Filter(accounts[..i], InRegion(region))
      {
        FilterStep(accounts, i, InRegion(region));
        if AccountRegion(accounts[i]) == region {
          out := out + [accounts[i]];
        }
      }
      assert accounts[..|accounts|] == accounts;
    }

    static method BaseOf(accounts: seq<Account>, filter: RegionFilter) returns (base: seq<Account>)
      ensures base == RegionBase(accounts, filter)
    {
      match filter
      case RegionCN => base := FilterRegion(accounts, "cn");
      case RegionGlobal => base := FilterRegion(accounts, "global");
      case RegionAuto => base := accounts;
      case RegionDefault =>
        base := FilterRegion(accounts, "cn");
        if |base| == 0 {
          base := accounts;
        }
    }

    /** The usable accounts of the base, with the relaxation of the threshold. */
    static method UsableAccounts(base: seq<Account>, exclude: set<string>, view: View)
        returns (candidates: seq<Account>)
      ensures candidates == UsableOrRelaxed(base, exclude, view)
    {
      var eligible;
      candidates, eligible := UsableAndEligible(base, exclude, view);
      if |candidates| == 0 && eligible > 0 {
        var relaxed := [];
        for i := 0 to |base|
          invariant relaxed == Filter(base[..i], UsableBy(exclude, view, false))
        {
          FilterStep(base, i, UsableBy(exclude, view, false));
          if Usable(base[i], exclude, view, false) {
            relaxed := relaxed + [base[i]];
          }
        }
        assert base[..|base|] == base;
        if |relaxed| == eligible {
          candidates := relaxed;
        }
      }
    }

    static method UsableAndEligible(base: seq<Account>, exclude: set<string>, view: View)
        returns (candidates: seq<Account>, eligible: nat)
      ensures candidates == Filter(base, UsableBy(exclude, view, true))
      ensures eligible == |Filter(base, Admitted(exclude))|
    {
      hide Usable;
      candidates, eligible := [], 0;
      for i := 0 to |base|
        invariant candidates == Filter(base[..i], UsableBy(exclude, view, true))
        invariant eligible == |Filter(base[..i], Admitted(exclude))|
      {
        FilterStep(base, i, UsableBy(exclude, view, true));
        FilterStep(base, i, Admitted(exclude));
        if base[i].id in exclude {
          assert !Usable(base[i], exclude, view, true) by {
            UsableMeaning(base[i], exclude, view);
          }
          continue;
        }
        eligible := eligible + 1;
        if Usable(base[i], exclude, view, true) {
          candidates := candidates + [base[i]];
        }
      }
      assert base[..|base|] == base;
    }

    static method SupportsModel(candidates: seq<Account>, view: View, model: string) returns (supported: seq<Account>)
      ensures supported == OrElse(Filter(candidates, MayServe(view, model)), candidates)
    {
      if model == "" {
        FilterKeepsAllIff(candidates, MayServe(view, model));
        return candidates;
      }
      supported := [];
      for i := 0 to |candidates|
        invariant supported == Filter(candidates[..i], MayServe(view, model))
      {
        FilterStep(candidates, i, MayServe(view, model));
        var acc := candidates[i];
        if acc.id in view.bridges && view.bridges[acc.id].catalog.Some? {
          if model in view.bridges[acc.id].catalog.value {
            supported := supported + [acc];
          }
          continue;
        }
        supported := supported + [acc];
      }
      assert candidates[..|candidates|] == candidates;
      if |supported| == 0 {
        supported := candidates;
      }
    }

    static method FreeOrAll(candidates: seq<Account>, view: View) returns (pickFrom: seq<Account>)
      ensures pickFrom == OrElse(Filter(candidates, HasFreeSlot(view)), candidates)
    {
      pickFrom := [];
      for i := 0 to |candidates|
        invariant pickFrom == Filter(candidates[..i], HasFreeSlot(view))
      {
        FilterStep(candidates, i, HasFreeSlot(view));
        if NotSaturated(candidates[i], view) {
          pickFrom := pickFrom + [candidates[i]];
        }
      }
      assert candidates[..|candidates|] == candidates;
      if |pickFrom| == 0 {
        pickFrom := candidates;
      }
    }

    /** Selects the account for one chat request. */
    method Pick(stickyKey: string, model: string, filter: RegionFilter, exclude: set<string>, view: View)
      returns (res: Option<Account>)
      modifies this
      ensures (res, State()) == Picked(old(State()), stickyKey, model, filter, exclude, view)
    {
      if |view.accounts| == 0 {
        assert PickFrom(view, model, filter, exclude) == [];
        return None;
      }
      var base := BaseOf(view.accounts, filter);
      var candidates := UsableAccounts(base, exclude, view);
      candidates := SupportsModel(candidates, view, model);
      var pickFrom := FreeOrAll(candidates, view);
      assert pickFrom == PickFrom(view, model, filter, exclude);
      if |pickFrom| == 0 {
        return None;
      }
      hide PickFrom, Rotated;
      res := ReuseBinding(stickyKey, pickFrom, view);
      if res.None? {
        var acc := Rotate(pickFrom, filter, model, view);
        res := Some(acc);
      }
    }

    /** Serves the request from its sticky binding, or drops a binding that no longer holds. */
    method ReuseBinding(stickyKey: string, pickFrom: seq<Account>, view: View) returns (res: Option<Account>)
      modifies this`sticky
      ensures match Consult(old(State()), stickyKey, pickFrom, view)
              case Reuse(b) => b.accountId in Ids(pickFrom) && res == Some(AccountById(pickFrom, b.accountId))
                               && sticky == old(sticky)[stickyKey := b]
              case Drop => res == None && sticky == old(sticky) - {stickyKey}
              case Absent => res == None && sticky == old(sticky)
    {
      res := None;
      if view.config.strategy != RoundRobin && stickyKey in sticky {
        var b := sticky[stickyKey];
        if view.now > b.expiresAt {
          sticky := sticky - {stickyKey};
        } else if b.accountId in Ids(pickFrom) {
          b := b.(count := b.count + 1);
          if view.config.stickyLimit > 0 && b.count > view.config.stickyLimit {
            sticky := sticky - {stickyKey};
          } else {
            sticky := sticky[stickyKey := b];
            res := Some(AccountById(pickFrom, b.accountId));
          }
        } else {
          sticky := sticky - {stickyKey};
        }
      }
    }

    /** Advances the rotation over the candidates. */
    method Rotate(candidates: seq<Account>, filter: RegionFilter, model: string, view: View) returns (acc: Account)
      requires candidates != []
      modifies this`cursor, this`wrr
      ensures (acc, State()) == Rotated(old(State()), candidates, filter, model, view)
    {
      hide W.Step, C.SortById, C.Less, C.IsResumeIndex;
      var key := RouteKey(filter, model);
      if view.config.strategy == LeastInFlight {
        var best := 0;
        for i := 1 to |candidates|
          invariant best < |candidates| && best == LeastBusy(candidates, view, i)
        {
          if InFlight(candidates[i], view) < InFlight(candidates[best], view) {
            best := i;
          }
        }
        cursor := cursor[key := candidates[best].id];
        return candidates[best];
      }
      var ok;
      acc, ok := WeightedRotate(key, candidates);
      if ok {
        return;
      }
      var sorted := C.SortById(candidates);
      C.SortByIdSorts(candidates);
      var last := if key in cursor then cursor[key] else "";
      var idx := 0;
      if last != "" {
        var i := 0;
        while i < |sorted|
          invariant i <= |sorted| && idx == 0
          invariant FirstAbove(sorted, last, |sorted|) >= i
        {
          if C.Less(last, sorted[i].id) {
            idx := i;
            break;
          }
          if i == |sorted| - 1 {
            idx := 0;
          }
          i := i + 1;
        }
      }
      acc := sorted[idx];
      cursor := cursor[key := acc.id];
    }

    /** One step of smooth weighted round-robin; ok is false when the weights are equal. */
    method WeightedRotate(key: string, candidates: seq<Account>) returns (acc: Account, ok: bool)
      requires candidates != []
      modifies this`cursor, this`wrr
      ensures ok == !Uniform(candidates)
      ensures !ok ==> cursor == old(cursor) && wrr == old(wrr) - {key}
      ensures ok ==>
                var (i, running) := W.Step(RunningOf(old(State()), key), candidates);
                acc == candidates[i] && wrr == old(wrr)[key := running] &&
                    cursor == old(cursor)[key := candidates[i].id]
    {
      var total, uniform := TotalWeight(candidates);
      if uniform {
        wrr := wrr - {key};
        return candidates[0], false;
      }
      hide W.Step;
      var best, state := StepRunning(if key in wrr then wrr[key] else map[], candidates, total);
      wrr := wrr[key := state];
      cursor := cursor[key := candidates[best].id];
      return candidates[best], true;
    }

    static method TotalWeight(candidates: seq<Account>) returns (total: int, uniform: bool)
      requires candidates != []
      ensures total == Sum(Weights(candidates))
      ensures uniform == Uniform(candidates)
    {
      total, uniform := 0, true;
      var first := Weight(candidates[0]);
      for i := 0 to |candidates|
        invariant total == SumTo(Weights(candidates), i)
        invariant uniform == forall j :: 0 <= j < i ==> Weight(candidates[j]) == first
      {
        var w := Weight(candidates[i]);
        total := total + w;
        if w != first {
          uniform := false;
        }
      }
    }

    /** Drops departed accounts, raises everybody, and charges the total to the best. */
    static method StepRunning(start: W.Running, candidates: seq<Account>, total: int)
        returns (best: nat, state: W.Running)
      requires candidates != [] && total == Sum(Weights(candidates))
      ensures (best, state) == W.Step(start, candidates)
    {
      hide W.Raised, Sum;
      state := DropDeparted(start, Ids(candidates));
      assert state == W.Kept(start, candidates);
      ghost var bestWeight;
      best, state, bestWeight := RaiseAndScan(state, candidates);
      var bestId := candidates[best].id;
      state := state[bestId := W.At(state, bestId) - total];
    }

    /** Adds every candidate's weight and keeps the first largest positive result. */
    static method RaiseAndScan(start: W.Running, candidates: seq<Account>)
      returns (best: nat, state: W.Running, bestWeight: int)
      requires candidates != []
      ensures (state, best, bestWeight) == W.Raised(start, candidates, |candidates|)
    {
      state, best, bestWeight := start, 0, 0;
      for i := 0 to |candidates|
        invariant (state, best, bestWeight) == W.Raised(start, candidates, i)
      {
        var id := candidates[i].id;
        state := state[id := W.At(state, id) + Weight(candidates[i])];
        if state[id] > bestWeight {
          best, bestWeight := i, state[id];
        }
      }
    }

    /** Removes the entries of accounts that left the candidate set. */
    static method DropDeparted(start: W.Running, live: set<string>) returns (state: W.Running)
      ensures state == map id | id in start && id in live :: start[id]
    {
      state := start;
      var left := start.Keys;
      while left != {}
        invariant left <= start.Keys
        invariant state == map id | id in start && (id in left || id in live) :: start[id]
        decreases left
      {
        var id :| id in left;
        left := left - {id};
        if id !in live {
          state := state - {id};
        }
      }
    }

    /** Records that the account served the sticky key. */
    method Bind(stickyKey: string, accountId: string, now: int)
      modifies this`sticky
      ensures Binds(old(State()), stickyKey, accountId, now, State())
    {
      if stickyKey == "" || accountId == "" {
        return;
      }
      if stickyKey in sticky && now < sticky[stickyKey].expiresAt && sticky[stickyKey].accountId == accountId {
        sticky := sticky[stickyKey := sticky[stickyKey].(expiresAt := now + STICKY_TTL)];
        return;
      }
      if |sticky| >= STICKY_CAPACITY {
        PruneSticky(now);
      }
      assert MakesRoom(old(sticky), now, sticky);
      sticky := sticky[stickyKey := Binding(accountId, 1, now + STICKY_TTL)];
    }

    /** Drops expired bindings and then, while the table is still full, arbitrary ones. */
    method PruneSticky(now: int)
      modifies this`sticky
      ensures Prunes(old(sticky), now, sticky)
    {
      var left := sticky.Keys;
      while left != {}
        invariant left <= old(sticky).Keys
        invariant sticky == map k | k in old(sticky) && (k in left || old(sticky)[k].expiresAt >= now) :: old(sticky)[k]
        decreases left
      {
        var k :| k in left;
        left := left - {k};
        if now > sticky[k].expiresAt {
          sticky := sticky - {k};
        }
      }
      assert sticky == Live(old(sticky), now);
      left := sticky.Keys;
      while left != {}
        invariant left <= sticky.Keys && sticky.Keys <= Live(old(sticky), now).Keys
        invariant forall k :: k in sticky ==> sticky[k] == Live(old(sticky), now)[k]
        invariant |Live(old(sticky), now)| < STICKY_CAPACITY ==> sticky == Live(old(sticky), now)
        invariant |Live(old(sticky), now)| >= STICKY_CAPACITY ==>
                    |sticky| >= STICKY_CAPACITY - 1 && (|sticky| >= STICKY_CAPACITY ==> left == sticky.Keys)
        decreases left
      {
        var k :| k in left;
        if |sticky| < STICKY_CAPACITY {
          break;
        }
        ghost var before := sticky;
        left := left - {k};
        sticky := sticky - {k};
        assert before.Keys == sticky.Keys + {k};
        assert |before| == |before.Keys| && |sticky| == |sticky.Keys|;
      }
    }
  }

  /** A pool without repeated IDs yields candidates without repeated IDs. */
  lemma PickFromDistinct(view: View, model: string, filter: RegionFilter, exclude: set<string>)
    requires DistinctIds(view.accounts)
    ensures DistinctIds(PickFrom(view, model, filter, exclude))
  {
    var accounts := view.accounts;
    FilterDistinct(accounts, InRegion("cn"));
    FilterDistinct(accounts, InRegion("global"));
    var base := RegionBase(accounts, filter);
    FilterDistinct(base, UsableBy(exclude, view, true));
    FilterDistinct(base, UsableBy(exclude, view, false));
    var candidates := UsableOrRelaxed(base, exclude, view);
    FilterDistinct(candidates, MayServe(view, model));
    var supporting := OrElse(Filter(candidates, MayServe(view, model)), candidates);
    FilterDistinct(supporting, HasFreeSlot(view));
  }
}
