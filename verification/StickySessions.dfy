/** Sticky bindings over whole runs of the router. */
module StickySessions {
  import opened Common
  import opened Accounts
  import opened Candidates
  import opened RouterSpec

  /** What changes the sticky table: a routing decision, or a finished success. */
  datatype Event =
    | Routed(stickyKey: string, model: string, filter: RegionFilter, exclude: set<string>, view: View)
    | Succeeded(stickyKey: string, accountId: string, now: int)

  ghost predicate Happens(st: RouterState, event: Event, st': RouterState) {
    match event
    case Routed(stickyKey, model, filter, exclude, view) => st' == Picked(st, stickyKey, model, filter, exclude, view).1
    case Succeeded(stickyKey, accountId, now) => Binds(st, stickyKey, accountId, now, st')
  }

  /** A history of the router from its empty start under the sticky limit. */
  ghost predicate History(states: seq<RouterState>, events: seq<Event>, limit: int) {
    && |states| == |events| + 1
    && states[0].sticky == map[]
    && (forall n :: 0 <= n < |events| ==> Happens(states[n], events[n], states[n + 1]))
    && (forall n :: 0 <= n < |events| && events[n].Routed? ==> events[n].view.config.stickyLimit == limit)
  }

  ghost predicate WithinLimits(sticky: map<string, Binding>, limit: int) {
    && |sticky| <= STICKY_CAPACITY
    && forall k :: k in sticky ==> 1 <= sticky[k].count <= limit
  }

  /** A decision touches only its own key: the binding is reused with one more
      request on its count, or removed, or left alone. */
  lemma RoutingTouchesOneKey(st: RouterState, stickyKey: string, model: string, filter: RegionFilter,
      exclude: set<string>, view: View)
    ensures var sticky' := Picked(st, stickyKey, model, filter, exclude, view).1.sticky;
            || sticky' == st.sticky
            || sticky' == st.sticky - {stickyKey}
            || (&& stickyKey in st.sticky
                && (view.config.stickyLimit > 0 ==> st.sticky[stickyKey].count < view.config.stickyLimit)
                && sticky' == st.sticky[stickyKey := st.sticky[stickyKey].(count := st.sticky[stickyKey].count + 1)])
  {
    hide Rotated, PickFrom, Ids, AccountById;
  }

  lemma MapSizes<V>(m: map<string, V>, k: string, v: V)
    ensures |m[k := v]| == |m| + if k in m then 0 else 1
    ensures |m - {k}| <= |m|
  {
    assert m[k := v].Keys == m.Keys + {k};
    assert (m - {k}).Keys == m.Keys - {k};
    assert |m| == |m.Keys| && |m[k := v]| == |m[k := v].Keys| && |m - {k}| == |(m - {k}).Keys|;
  }

  /** A success adds or refreshes its own key and at most evicts others. */
  lemma BindingTouchesOneKey(st: RouterState, stickyKey: string, accountId: string, now: int, st': RouterState)
    requires Binds(st, stickyKey, accountId, now, st')
    ensures forall k :: k in st'.sticky && k != stickyKey ==> k in st.sticky && st'.sticky[k] == st.sticky[k]
    ensures if stickyKey == "" || accountId == "" then st'.sticky == st.sticky
            else stickyKey in st'.sticky && st'.sticky[stickyKey].accountId == accountId &&
                 st'.sticky[stickyKey].count ==
                   if stickyKey in st.sticky && now < st.sticky[stickyKey].expiresAt
                      && st.sticky[stickyKey].accountId == accountId
                   then st.sticky[stickyKey].count else 1
    ensures stickyKey != "" && accountId != "" ==> st'.sticky[stickyKey].expiresAt == now + 3600 * SECOND
    ensures |st.sticky| <= STICKY_CAPACITY ==> |st'.sticky| <= STICKY_CAPACITY
  {
    CapacityIsKept(st, stickyKey, accountId, now, st');
    if stickyKey != "" && accountId != "" && !Refreshes(st, stickyKey, accountId, now) {
      var bound := Binding(accountId, 1, now + STICKY_TTL);
      var kept :| MakesRoom(st.sticky, now, kept) && st'.sticky == kept[stickyKey := bound];
      RoomIsPart(st.sticky, now, kept);
      hide MakesRoom;
    }
  }

  lemma RoomIsPart(before: map<string, Binding>, now: int, kept: map<string, Binding>)
    requires MakesRoom(before, now, kept)
    ensures forall k :: k in kept ==> k in before && kept[k] == before[k]
    ensures |before| <= STICKY_CAPACITY ==> |kept| < STICKY_CAPACITY
  {
  }

  lemma CapacityIsKept(st: RouterState, stickyKey: string, accountId: string, now: int, st': RouterState)
    requires Binds(st, stickyKey, accountId, now, st')
    ensures |st.sticky| <= STICKY_CAPACITY ==> |st'.sticky| <= STICKY_CAPACITY
  {
    if stickyKey != "" && accountId != "" {
      if Refreshes(st, stickyKey, accountId, now) {
        MapSizes(st.sticky, stickyKey, st.sticky[stickyKey].(expiresAt := now + STICKY_TTL));
      } else {
        var bound := Binding(accountId, 1, now + STICKY_TTL);
        var kept :| MakesRoom(st.sticky, now, kept) && st'.sticky == kept[stickyKey := bound];
        RoomIsPart(st.sticky, now, kept);
        MapSizes(kept, stickyKey, bound);
      }
    }
  }

  /** Nobody is evicted below the capacity, and nobody who is not expired as long as that
      makes room. */
  lemma BindingEvictsLittle(st: RouterState, stickyKey: string, accountId: string, now: int, st': RouterState)
    requires Binds(st, stickyKey, accountId, now, st')
    ensures |st.sticky| < 10_000 ==> forall k :: k in st.sticky ==> k in st'.sticky
    ensures |Live(st.sticky, now)| < 10_000 ==>
              forall k :: k in st.sticky && st.sticky[k].expiresAt >= now ==> k in st'.sticky
  {
    if stickyKey != "" && accountId != "" && !Refreshes(st, stickyKey, accountId, now) {
      var bound := Binding(accountId, 1, now + STICKY_TTL);
      var kept :| MakesRoom(st.sticky, now, kept) && st'.sticky == kept[stickyKey := bound];
    }
  }

  lemma UpdateKeepsLimits(sticky: map<string, Binding>, k: string, b: Binding, limit: int)
    requires WithinLimits(sticky, limit) && k in sticky && 1 <= b.count <= limit
    ensures WithinLimits(sticky[k := b], limit) && WithinLimits(sticky - {k}, limit)
  {
    MapSizes(sticky, k, b);
  }

  /** Every step keeps the counts within 1..limit and the table within its capacity. */
  lemma StepKeepsLimits(st: RouterState, event: Event, st': RouterState, limit: int)
    requires limit >= 1 && WithinLimits(st.sticky, limit) && Happens(st, event, st')
    requires event.Routed? ==> event.view.config.stickyLimit == limit
    ensures WithinLimits(st'.sticky, limit)
  {
    hide Picked, Binds;
    match event
    case Routed(stickyKey, model, filter, exclude, view) =>
      RoutingTouchesOneKey(st, stickyKey, model, filter, exclude, view);
      if st'.sticky != st.sticky {
        assert stickyKey !in st.sticky ==> st.sticky - {stickyKey} == st.sticky;
        var b := st.sticky[stickyKey];
        UpdateKeepsLimits(st.sticky, stickyKey, if b.count < limit then b.(count := b.count + 1) else b, limit);
      }
    case Succeeded(stickyKey, accountId, now) =>
      BindingTouchesOneKey(st, stickyKey, accountId, now, st');
  }

  /** In every reachable state the table is within its capacity and every count is in 1..limit. */
  lemma {:induction false} AlwaysWithinLimits(states: seq<RouterState>, events: seq<Event>, limit: int, n: nat)
    requires limit >= 1 && History(states, events, limit) && n < |states|
    ensures WithinLimits(states[n].sticky, limit)
  {
    if n > 0 {
      AlwaysWithinLimits(states, events, limit, n - 1);
      assert Happens(states[n - 1], events[n - 1], states[n]);
      StepKeepsLimits(states[n - 1], events[n - 1], states[n], limit);
    }
  }

  /** Every bound account had a successful request for that key: a failing account is never pinned. */
  lemma {:induction false} BoundOnlyAfterSuccess(states: seq<RouterState>, events: seq<Event>, limit: int, n: nat,
      key: string)
    requires History(states, events, limit) && n < |states| && key in states[n].sticky
    ensures exists m :: 0 <= m < n && events[m].Succeeded? && events[m].stickyKey == key
                        && events[m].accountId == states[n].sticky[key].accountId
  {
    hide Picked, Binds;
    var before, event := states[n - 1], events[n - 1];
    assert Happens(before, event, states[n]);
    if event.Succeeded? && event.stickyKey == key && event.accountId == states[n].sticky[key].accountId {
      return;
    }
    match event {
      case Routed(stickyKey, model, filter, exclude, view) =>
        RoutingTouchesOneKey(before, stickyKey, model, filter, exclude, view);
      case Succeeded(stickyKey, accountId, now) =>
        BindingTouchesOneKey(before, stickyKey, accountId, now, states[n]);
    }
    BoundOnlyAfterSuccess(states, events, limit, n - 1, key);
  }

  // ---- The quota of one binding ----

  /** Event n makes a new binding for the key (as opposed to refreshing one). */
  ghost predicate Creates(states: seq<RouterState>, events: seq<Event>, n: nat, key: string)
    requires n < |events| && |states| == |events| + 1
  {
    && key != ""
    && events[n].Succeeded? && events[n].stickyKey == key && events[n].accountId != ""
    && var sticky := states[n].sticky;
       !(key in sticky && events[n].now < sticky[key].expiresAt && sticky[key].accountId == events[n].accountId)
  }

  /** Event n is a request served from the key's binding. */
  ghost predicate ServesFromBinding(states: seq<RouterState>, events: seq<Event>, n: nat, key: string)
    requires n < |events| && |states| == |events| + 1
  {
    && events[n].Routed? && events[n].stickyKey == key
    && key in states[n].sticky && key in states[n + 1].sticky
    && states[n + 1].sticky[key].count == states[n].sticky[key].count + 1
  }

  ghost function Served(states: seq<RouterState>, events: seq<Event>, from: nat, to: nat, key: string): nat
    requires from <= to <= |events| && |states| == |events| + 1
  {
    if from == to then 0
    else Served(states, events, from, to - 1, key) + if ServesFromBinding(states, events, to - 1, key) then 1 else 0
  }

  /** From its creation on, a binding's count is the number of requests it served,
      counting the one that created it; once it is gone it serves no more. */
  lemma {:induction false} CountIsServed(states: seq<RouterState>, events: seq<Event>, limit: int, created: nat,
      n: nat, key: string)
    requires limit >= 1 && History(states, events, limit)
    requires created < n <= |events| && Creates(states, events, created, key)
    requires forall m :: created < m < n ==> !Creates(states, events, m, key)
    ensures 1 + Served(states, events, created + 1, n, key) <= limit
    ensures key in states[n].sticky ==> states[n].sticky[key].count == 1 + Served(states, events, created + 1, n, key)
  {
    hide Picked, Binds;
    assert key in states[n].sticky ==> states[n].sticky[key].count <= limit by {
      AlwaysWithinLimits(states, events, limit, n);
    }
    assert Happens(states[n - 1], events[n - 1], states[n]);
    var before, event := states[n - 1], events[n - 1];
    if n == created + 1 {
      BindingTouchesOneKey(before, key, event.accountId, event.now, states[n]);
    } else {
      CountIsServed(states, events, limit, created, n - 1, key);
      match event {
        case Routed(stickyKey, model, filter, exclude, view) =>
          RoutingTouchesOneKey(before, stickyKey, model, filter, exclude, view);
        case Succeeded(stickyKey, accountId, now) =>
          assert !Creates(states, events, n - 1, key);
          BindingTouchesOneKey(before, stickyKey, accountId, now, states[n]);
      }
    }
  }

  /** Quota: until the key is bound anew, a binding serves at most limit requests,
      counting the one that created it. */
  lemma BindingQuota(states: seq<RouterState>, events: seq<Event>, limit: int, created: nat, n: nat, key: string)
    requires limit >= 1 && History(states, events, limit)
    requires created < n <= |events| && Creates(states, events, created, key)
    requires forall m :: created < m < n ==> !Creates(states, events, m, key)
    ensures 1 + Served(states, events, created + 1, n, key) <= limit
  {
    CountIsServed(states, events, limit, created, n, key);
  }
}
