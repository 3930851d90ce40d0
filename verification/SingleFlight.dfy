/** The model catalog of one account: a cache that any number of concurrent callers
    read and at most one of them refetches. Every critical section of the catalog
    mutex is one step; callers interleave arbitrarily between sections. */
module SingleFlight {
  import opened Common
  import opened Tally

  /** Seconds a stored catalog is trusted. */
  const CATALOG_TTL := 600

  datatype Catalog = DefaultCatalog | Dynamic(keys: seq<string>)

  /** The fields guarded by the catalog mutex. */
  datatype Cache = Cache(catalog: Option<Catalog>, stampedAt: int, inFlight: bool)

  const EMPTY_CACHE := Cache(None, 0, false)

  datatype Verdict = Serve(catalog: Catalog) | Wait | Fetch

  /** What a caller that holds the mutex does with its reading of the clock. */
  function Decide(cache: Cache, read: int): Verdict {
    if cache.catalog.Some? && read - cache.stampedAt < CATALOG_TTL then Serve(cache.catalog.value)
    else if cache.inFlight then Wait
    else Fetch
  }

  function Checked(cache: Cache, read: int): Cache {
    if Decide(cache, read).Fetch? then cache.(inFlight := true) else cache
  }

  function OrDefault(fetched: Option<Catalog>): Catalog {
    if fetched.Some? then fetched.value else DefaultCatalog
  }

  function Refilled(cache: Cache, fetched: Option<Catalog>, now: int): Cache {
    cache.(catalog := Some(OrDefault(fetched)), stampedAt := now)
  }

  class CatalogCache {
    var catalog: Option<Catalog>
    var catalogTs: int
    var catalogInflt: bool

    ghost function View(): Cache
      reads this
    {
      Cache(catalog, catalogTs, catalogInflt)
    }

    constructor ()
      ensures View() == EMPTY_CACHE
    {
      catalog, catalogTs, catalogInflt := None, 0, false;
    }

    /** One pass of the waiting loop under the mutex. */
    method Check(read: int) returns (verdict: Verdict)
      modifies this
      ensures verdict == Decide(old(View()), read) && View() == Checked(old(View()), read)
    {
      if catalog.Some? && read - catalogTs < CATALOG_TTL {
        return Serve(catalog.value);
      }
      if catalogInflt {
        return Wait;
      }
      catalogInflt := true;
      return Fetch;
    }

    /** Publishes what was fetched, or the default catalog when nothing was. */
    method Store(fetched: Option<Catalog>, now: int) returns (cat: Catalog)
      modifies this
      ensures cat == OrDefault(fetched) && View() == Refilled(old(View()), fetched, now)
    {
      match fetched {
        case Some(value) => cat := value;
        case None => cat := DefaultCatalog;
      }
      catalog := Some(cat);
      catalogTs := now;
    }

    /** The deferred end of a fetch. */
    method Clear()
      modifies this
      ensures View() == old(View()).(inFlight := false)
    {
      catalogInflt := false;
    }
  }

  /** Where a caller stands. It reads the clock before it first takes the mutex. */
  datatype Phase =
    | Idle
    | Arrived(read: int)
    | Waiting
    | Fetching
    | Stored(catalog: Catalog)
    | Unwinding
    | Finished(catalog: Catalog)
    | Crashed

  /** One publication of a catalog. */
  datatype Store = Store(at: int, catalog: Catalog)

  datatype State = State(clock: int, cache: Cache, callers: seq<Phase>, stores: seq<Store>)

  datatype Event =
    | Tick(seconds: int)
    | Arrive(caller: nat)
    | Look(caller: nat)
    | Publish(caller: nat, fetched: Option<Catalog>)
    | Panic(caller: nat)
    | End(caller: nat)

  function Initial(callers: nat, clock: int): State {
    State(clock, EMPTY_CACHE, seq(callers, i => Idle), [])
  }

  function Looked(s: State, i: nat, read: int): State
    requires i < |s.callers|
  {
    var phase := match Decide(s.cache, read)
      case Serve(catalog) => Finished(catalog)
      case Wait => Waiting
      case Fetch => Fetching;
    s.(cache := Checked(s.cache, read), callers := s.callers[i := phase])
  }

  /** The step an event takes; None when its caller is not there to take it. A
      waking caller reads the clock under the mutex. */
  function Step(s: State, e: Event): Option<State> {
    match e
    case Tick(seconds) => Some(s.(clock := s.clock + seconds))
    case _ =>
      var i := e.caller;
      if i >= |s.callers| then None
      else
        match (e, s.callers[i])
        case (Arrive(_), Idle) => Some(s.(callers := s.callers[i := Arrived(s.clock)]))
        case (Look(_), Arrived(read)) => Some(Looked(s, i, read))
        case (Look(_), Waiting) => Some(Looked(s, i, s.clock))
        case (Publish(_, fetched), Fetching) =>
          var catalog := OrDefault(fetched);
          Some(s.(cache := Refilled(s.cache, fetched, s.clock), callers := s.callers[i := Stored(catalog)],
                  stores := s.stores + [Store(s.clock, catalog)]))
        case (Panic(_), Fetching) => Some(s.(callers := s.callers[i := Unwinding]))
        case (End(_), Stored(catalog)) =>
          Some(s.(cache := s.cache.(inFlight := false), callers := s.callers[i := Finished(catalog)]))
        case (End(_), Unwinding) =>
          Some(s.(cache := s.cache.(inFlight := false), callers := s.callers[i := Crashed]))
        case _ => None
  }

  function Run(s: State, events: seq<Event>): Option<State>
    decreases |events|
  {
    if events == [] then Some(s)
    else
      match Step(s, events[0])
      case None => None
      case Some(t) => Run(t, events[1..])
  }

  /** Between setting and clearing the in-flight flag. */
  predicate InSection(p: Phase) {
    p.Fetching? || p.Stored? || p.Unwinding?
  }

  function Inside(p: Phase): nat {
    if InSection(p) then 1 else 0
  }

  predicate Published(stores: seq<Store>, catalog: Catalog) {
    exists k :: 0 <= k < |stores| && stores[k].catalog == catalog
  }

  ghost predicate FlagCountsSection(s: State) {
    Total(s.callers, Inside) == if s.cache.inFlight then 1 else 0
  }

  predicate CacheHoldsLast(s: State) {
    if s.stores == [] then s.cache.catalog.None?
    else
      var last := s.stores[|s.stores| - 1];
      s.cache.catalog == Some(last.catalog) && s.cache.stampedAt == last.at
  }

  predicate HasCatalog(p: Phase) {
    p.Finished? || p.Stored?
  }

  ghost predicate HandsOutPublished(s: State) {
    forall i :: 0 <= i < |s.callers| && HasCatalog(s.callers[i]) ==> Published(s.stores, s.callers[i].catalog)
  }

  /** What every step keeps: the flag counts the callers in the section, the cache
      holds the last publication, and every catalog handed out was published. */
  ghost predicate Safe(s: State) {
    FlagCountsSection(s) && CacheHoldsLast(s) && HandsOutPublished(s)
  }

  lemma InitialIsSafe(callers: nat, clock: int)
    ensures Safe(Initial(callers, clock))
  {
    TotalZero(Initial(callers, clock).callers, Inside);
  }

  lemma StepKeepsFlag(s: State, e: Event)
    requires FlagCountsSection(s) && Step(s, e).Some?
    ensures FlagCountsSection(Step(s, e).value)
  {
    var t := Step(s, e).value;
    if !e.Tick? {
      var i := e.caller;
      TotalUpdate(s.callers, i, t.callers[i], Inside);
      assert t.callers == s.callers[i := t.callers[i]];
    }
  }

  lemma PublishedStays(before: seq<Store>, after: seq<Store>, catalog: Catalog)
    requires before <= after && Published(before, catalog)
    ensures Published(after, catalog)
  {
    var k :| 0 <= k < |before| && before[k].catalog == catalog;
    assert after[k].catalog == catalog;
  }

  lemma StepKeepsCache(s: State, e: Event)
    requires CacheHoldsLast(s) && HandsOutPublished(s) && Step(s, e).Some?
    ensures CacheHoldsLast(Step(s, e).value) && HandsOutPublished(Step(s, e).value)
    ensures s.stores <= Step(s, e).value.stores
  {
    hide Published;
    var t := Step(s, e).value;
    forall i | 0 <= i < |t.callers| && HasCatalog(t.callers[i])
      ensures Published(t.stores, t.callers[i].catalog)
    {
      if HasCatalog(s.callers[i]) {
        PublishedStays(s.stores, t.stores, s.callers[i].catalog);
      } else {
        LastIsPublished(t.stores);
      }
    }
  }

  lemma LastIsPublished(stores: seq<Store>)
    requires stores != []
    ensures Published(stores, stores[|stores| - 1].catalog)
  {
  }

  lemma StepKeepsSafe(s: State, e: Event)
    requires Safe(s) && Step(s, e).Some?
    ensures Safe(Step(s, e).value)
    ensures s.stores <= Step(s, e).value.stores
  {
    hide Step, FlagCountsSection, CacheHoldsLast, HandsOutPublished;
    StepKeepsFlag(s, e);
    StepKeepsCache(s, e);
  }

  /** In every interleaving at most one caller is in the section, and the flag is set
      exactly when there is one. */
  lemma AtMostOneFetcher(callers: nat, clock: int, events: seq<Event>)
    requires Run(Initial(callers, clock), events).Some?
    ensures var s := Run(Initial(callers, clock), events).value;
      && (forall i, j :: 0 <= i < j < |s.callers| ==> !(InSection(s.callers[i]) && InSection(s.callers[j])))
      && (s.cache.inFlight <==> exists i :: 0 <= i < |s.callers| && InSection(s.callers[i]))
      && (s.cache.catalog.Some? <==> s.stores != [])
      && (forall i :: 0 <= i < |s.callers| && s.callers[i].Finished? ==> Published(s.stores, s.callers[i].catalog))
  {
    var init := Initial(callers, clock);
    InitialIsSafe(callers, clock);
    RunKeepsSafe(init, events);
    var s := Run(init, events).value;
    forall i, j | 0 <= i < j < |s.callers|
      ensures !(InSection(s.callers[i]) && InSection(s.callers[j]))
    {
      TotalOfTwo(s.callers, i, j, Inside);
    }
    if s.cache.inFlight {
      var i := TotalPositive(s.callers, Inside);
      assert InSection(s.callers[i]);
    }
    forall i | 0 <= i < |s.callers| && InSection(s.callers[i])
      ensures s.cache.inFlight
    {
      TotalUpdate(s.callers, i, s.callers[i], Inside);
    }
  }

  /** From any safe state on, a stored catalog is never lost: publications only
      accumulate and the cache always holds the latest one. */
  lemma {:induction false} RunKeepsSafe(s: State, events: seq<Event>)
    requires Safe(s) && Run(s, events).Some?
    ensures Safe(Run(s, events).value)
    ensures s.stores <= Run(s, events).value.stores
    ensures s.cache.catalog.Some? ==> Run(s, events).value.cache.catalog.Some?
    decreases |events|
  {
    if events != [] {
      StepKeepsSafe(s, events[0]);
      RunKeepsSafe(Step(s, events[0]).value, events[1..]);
    }
  }

  /** No event moves the clock back. */
  predicate Forward(events: seq<Event>) {
    forall k :: 0 <= k < |events| && events[k].Tick? ==> events[k].seconds >= 0
  }

  /** With a clock that never goes back, a fetch starts only when the last
      publication has expired. */
  ghost predicate Spaced(s: State) {
    && (forall k :: 0 < k < |s.stores| ==> s.stores[k].at - s.stores[k - 1].at >= CATALOG_TTL)
    && (s.stores != [] ==> s.stores[|s.stores| - 1].at <= s.clock)
    && forall i :: 0 <= i < |s.callers| ==>
         && (s.callers[i].Arrived? ==> s.callers[i].read <= s.clock)
         && (s.callers[i].Fetching? && s.stores != [] ==> s.clock - s.stores[|s.stores| - 1].at >= CATALOG_TTL)
  }

  lemma StepKeepsSpaced(s: State, e: Event)
    requires Safe(s) && Spaced(s) && Step(s, e).Some? && (e.Tick? ==> e.seconds >= 0)
    ensures Spaced(Step(s, e).value)
  {
    hide FlagCountsSection, HandsOutPublished, Inside;
    var t := Step(s, e).value;
    if e.Publish? {
      OnlyFetcher(s, e.caller);
      var last := |s.stores|;
      forall k | 0 < k < |t.stores|
        ensures t.stores[k].at - t.stores[k - 1].at >= CATALOG_TTL
      {
        if k < last {
          assert t.stores[k] == s.stores[k] && t.stores[k - 1] == s.stores[k - 1];
        } else {
          assert t.stores[k - 1] == s.stores[last - 1];
        }
      }
    } else {
      assert t.stores == s.stores;
    }
  }

  lemma OnlyFetcher(s: State, i: nat)
    requires Safe(s) && i < |s.callers| && InSection(s.callers[i])
    ensures forall j :: 0 <= j < |s.callers| && j != i ==> !InSection(s.callers[j])
  {
    forall j | 0 <= j < |s.callers| && j != i
      ensures !InSection(s.callers[j])
    {
      if j < i {
        TotalOfTwo(s.callers, j, i, Inside);
      } else {
        TotalOfTwo(s.callers, i, j, Inside);
      }
    }
  }

  lemma {:induction false} RunKeepsSpaced(s: State, events: seq<Event>)
    requires Safe(s) && Spaced(s) && Run(s, events).Some? && Forward(events)
    ensures Spaced(Run(s, events).value)
    decreases |events|
  {
    if events != [] {
      StepKeepsSafe(s, events[0]);
      StepKeepsSpaced(s, events[0]);
      forall k | 0 <= k < |events[1..]| && events[1..][k].Tick?
        ensures events[1..][k].seconds >= 0
      {
        assert events[1..][k] == events[k + 1];
      }
      RunKeepsSpaced(Step(s, events[0]).value, events[1..]);
    }
  }

  lemma {:induction false} SpacedStoresSpan(stores: seq<Store>, n: nat)
    requires 0 < n <= |stores|
    requires forall k :: 0 < k < |stores| ==> stores[k].at - stores[k - 1].at >= CATALOG_TTL
    ensures (n - 1) * CATALOG_TTL <= stores[n - 1].at - stores[0].at
  {
    if n > 1 {
      SpacedStoresSpan(stores, n - 1);
    }
  }

  /** However many callers there are and however they interleave, publications are a
      full time-to-live apart. */
  lemma FetchesAreSpaced(callers: nat, clock: int, events: seq<Event>)
    requires Run(Initial(callers, clock), events).Some? && Forward(events)
    ensures var s := Run(Initial(callers, clock), events).value;
      && (forall k :: 0 < k < |s.stores| ==> s.stores[k].at - s.stores[k - 1].at >= CATALOG_TTL)
      && (s.stores != [] ==> (|s.stores| - 1) * CATALOG_TTL <= s.clock - s.stores[0].at)
  {
    var init := Initial(callers, clock);
    InitialIsSafe(callers, clock);
    RunKeepsSpaced(init, events);
    var s := Run(init, events).value;
    if s.stores != [] {
      SpacedStoresSpan(s.stores, |s.stores|);
    }
  }

  /** A caller that leaves by a look gets the last publication, younger than the
      time-to-live by its own reading of the clock. */
  lemma ServedIsLatest(s: State, i: nat)
    requires Safe(s) && Step(s, Look(i)).Some?
    ensures var t := Step(s, Look(i)).value;
      var read := if s.callers[i].Arrived? then s.callers[i].read else s.clock;
      t.callers[i].Finished? <==>
      s.stores != [] && read - s.stores[|s.stores| - 1].at < CATALOG_TTL &&
          t.callers[i] == Finished(s.stores[|s.stores| - 1].catalog)
  {
  }

  /** What a caller that holds the mutex does: it leaves with the catalog if one was
      published less than ten minutes before its reading of the clock; else it waits if a
      fetch is under way, and fetches if none is. */
  lemma LookMeaning(s: State, i: nat)
    requires Safe(s) && Step(s, Look(i)).Some?
    ensures var t := Step(s, Look(i)).value;
      var read := if s.callers[i].Arrived? then s.callers[i].read else s.clock;
      var young := s.stores != [] && read - s.stores[|s.stores| - 1].at < 600;
      && (t.callers[i].Finished? <==> young)
      && (t.callers[i].Waiting? <==> !young && s.cache.inFlight)
      && (t.callers[i].Fetching? <==> !young && !s.cache.inFlight)
      && t.stores == s.stores && t.clock == s.clock
      && forall j :: 0 <= j < |s.callers| && j != i ==> t.callers[j] == s.callers[j]
  {
  }

  /** What is published is what was fetched, or the default catalog if nothing was, stamped
      with the clock after the fetch; and the caller that fetched it leaves with it. */
  lemma PublishMeaning(s: State, i: nat, fetched: Option<Catalog>)
    requires Step(s, Publish(i, fetched)).Some?
    ensures var t := Step(s, Publish(i, fetched)).value;
      var catalog := match fetched case Some(c) => c case None => DefaultCatalog;
      && t.stores == s.stores + [Store(s.clock, catalog)]
      && t.cache.catalog == Some(catalog) && t.cache.stampedAt == s.clock
      && Step(t, End(i)).Some? && Step(t, End(i)).value.callers[i] == Finished(catalog)
  {
  }

  /** A caller reads the clock when it arrives; leaving the section, orderly or by a panic,
      clears the flag and touches nothing that is published. */
  lemma ComingAndGoing(s: State, i: nat)
    requires i < |s.callers|
    ensures s.callers[i].Idle? ==> Step(s, Arrive(i)) == Some(s.(callers := s.callers[i := Arrived(s.clock)]))
    ensures s.callers[i].Fetching? ==> Step(s, Panic(i)) == Some(s.(callers := s.callers[i := Unwinding]))
    ensures s.callers[i].Unwinding? ==>
              Step(s, End(i)) == Some(s.(cache := s.cache.(inFlight := false), callers := s.callers[i := Crashed]))
    ensures s.callers[i].Stored? ==>
              var t := Step(s, End(i));
              && t.Some? && t.value.callers[i] == Finished(s.callers[i].catalog) && t.value.stores == s.stores
              && t.value.cache == s.cache.(inFlight := false)
  {
  }

  predicate Over(p: Phase) {
    p.Finished? || p.Crashed?
  }

  /** Steps a caller still needs at most once nobody else is in the section. */
  function Remaining(p: Phase): nat {
    match p
    case Idle => 5
    case Arrived(_) => 4
    case Waiting => 3
    case Fetching => 2
    case Stored(_) => 1
    case Unwinding => 1
    case Finished(_) => 0
    case Crashed => 0
  }

  predicate Failed(p: Phase) {
    p.Crashed? || p.Unwinding?
  }

  lemma StepIsProgress(s: State, e: Event)
    requires Step(s, e).Some? && !e.Tick? && !e.Panic? && !Step(s, e).value.callers[e.caller].Waiting?
    ensures Advances(s, Step(s, e).value)
  {
    var t := Step(s, e).value;
    var i := e.caller;
    TotalUpdate(s.callers, i, t.callers[i], Remaining);
    assert t.callers == s.callers[i := t.callers[i]];
  }

  /** Less work is left and nobody else failed. */
  ghost predicate Advances(s: State, t: State) {
    && Total(t.callers, Remaining) < Total(s.callers, Remaining)
    && |t.callers| == |s.callers|
    && forall i :: 0 <= i < |s.callers| ==> (Failed(t.callers[i]) <==> Failed(s.callers[i]))
  }

  /** Some caller can always make progress. */
  lemma Progress(s: State) returns (e: Event)
    requires FlagCountsSection(s) && exists i :: 0 <= i < |s.callers| && !Over(s.callers[i])
    ensures Step(s, e).Some? && Advances(s, Step(s, e).value)
  {
    hide Advances;
    if s.cache.inFlight {
      var i := TotalPositive(s.callers, Inside);
      e := if s.callers[i].Fetching? then Publish(i, None) else End(i);
    } else {
      var i :| 0 <= i < |s.callers| && !Over(s.callers[i]);
      TotalUpdate(s.callers, i, s.callers[i], Inside);
      e := if s.callers[i].Idle? then Arrive(i) else Look(i);
    }
    StepIsProgress(s, e);
  }

  /** No interleaving blocks the callers: from every reachable state there is a
      schedule, without a further panic, after which all have their catalog. */
  lemma {:induction false} EveryoneCanFinish(s: State) returns (rest: seq<Event>)
    requires Safe(s)
    ensures Run(s, rest).Some?
    ensures var t := Run(s, rest).value;
      |t.callers| == |s.callers| && forall i :: 0 <= i < |t.callers| ==>
        if Failed(s.callers[i]) then t.callers[i].Crashed? else t.callers[i].Finished?
    decreases Total(s.callers, Remaining)
  {
    hide Step, FlagCountsSection, CacheHoldsLast, HandsOutPublished, Total, Remaining;
    if exists i :: 0 <= i < |s.callers| && !Over(s.callers[i]) {
      var e := Progress(s);
      StepKeepsSafe(s, e);
      var more := EveryoneCanFinish(Step(s, e).value);
      rest := [e] + more;
      assert rest[1..] == more;
    } else {
      rest := [];
    }
  }
}
