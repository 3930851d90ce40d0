/** The per-account admission gate: a channel with one token per upstream slot and a
    counter of the requests holding one. Every channel or counter operation is one
    step of one caller; callers interleave arbitrarily. */
module AdmissionGate {
  import opened Common
  import opened Tally

  /** The number of slots for a configured value, None when it is absent or no number. */
  function SlotsFor(configured: Option<int>): (n: nat)
    ensures 1 <= n <= 32
    ensures configured.Some? && 1 <= configured.value <= 32 ==> n == configured.value
  {
    if configured.Some? && 1 <= configured.value <= 32 then configured.value else 1
  }

  datatype Phase =
    | Idle
    | Queued       // waits for a slot or for its client to go away
    | Holding      // has a slot, not counted yet
    | Counted      // exchanges with the upstream
    | Uncounted    // no longer counted, slot still held
    | Served
    | Cancelled

  datatype State = State(capacity: nat, slots: int, inFlight: int, callers: seq<Phase>)

  /** Discount and Release are the deferred calls, run last-in first-out however the
      exchange ends. */
  datatype Event =
    | Arrive(caller: nat)
    | Admit(caller: nat)
    | Cancel(caller: nat)
    | Count(caller: nat)
    | Discount(caller: nat)
    | Release(caller: nat)

  function Initial(capacity: nat, callers: nat): State {
    State(capacity, 0, 0, seq(callers, i => Idle))
  }

  function Step(s: State, e: Event): Option<State> {
    var i := e.caller;
    if i >= |s.callers| then None
    else
      match (e, s.callers[i])
      case (Arrive(_), Idle) =>
        if s.slots < s.capacity then Some(s.(slots := s.slots + 1, callers := s.callers[i := Holding]))
        else Some(s.(callers := s.callers[i := Queued]))
      case (Admit(_), Queued) =>
        if s.slots < s.capacity then Some(s.(slots := s.slots + 1, callers := s.callers[i := Holding]))
        else None
      case (Cancel(_), Queued) => Some(s.(callers := s.callers[i := Cancelled]))
      case (Count(_), Holding) => Some(s.(inFlight := s.inFlight + 1, callers := s.callers[i := Counted]))
      case (Discount(_), Counted) => Some(s.(inFlight := s.inFlight - 1, callers := s.callers[i := Uncounted]))
      case (Release(_), Uncounted) => Some(s.(slots := s.slots - 1, callers := s.callers[i := Served]))
      case _ => None
  }

  function Run(s: State, events: seq<Event>): Option<State>
    decreases |events|
  {
    if events == [] then Some(s)
    else
      match Step(s, events[0])
      case None => None
      case Some(t) => Run(t, events[1..])
  }

  function Slot(p: Phase): nat {
    if p.Holding? || p.Counted? || p.Uncounted? then 1 else 0
  }

  function Exchange(p: Phase): nat {
    if p.Counted? then 1 else 0
  }

  function Passing(p: Phase): nat {
    if p.Holding? || p.Uncounted? then 1 else 0
  }

  /** Tokens and counter tell exactly who holds a slot and who is exchanging. */
  ghost predicate Accounted(s: State) {
    && s.slots == Total(s.callers, Slot) <= s.capacity
    && s.inFlight == Total(s.callers, Exchange)
  }

  lemma StepKeepsAccounted(s: State, e: Event)
    requires Accounted(s) && Step(s, e).Some?
    ensures Accounted(Step(s, e).value) && Step(s, e).value.capacity == s.capacity
  {
    var p := Step(s, e).value.callers[e.caller];
    TotalUpdate(s.callers, e.caller, p, Slot);
    TotalUpdate(s.callers, e.caller, p, Exchange);
  }

  lemma {:induction false} RunKeepsAccounted(s: State, events: seq<Event>)
    requires Accounted(s) && Run(s, events).Some?
    ensures Accounted(Run(s, events).value) && Run(s, events).value.capacity == s.capacity
    decreases |events|
  {
    if events != [] {
      StepKeepsAccounted(s, events[0]);
      RunKeepsAccounted(Step(s, events[0]).value, events[1..]);
    }
  }

  predicate Over(p: Phase) {
    p.Served? || p.Cancelled?
  }

  /** In every interleaving the counter stays between 0 and the slots taken, and
      those within the capacity; slots and counter differ by exactly the requests
      between the two operations; when all requests are over, both are 0 again. */
  lemma NeverOverbooked(capacity: nat, callers: nat, events: seq<Event>)
    requires Run(Initial(capacity, callers), events).Some?
    ensures var s := Run(Initial(capacity, callers), events).value;
      && 0 <= s.inFlight <= s.slots <= capacity
      && s.inFlight == Total(s.callers, Exchange)
      && s.slots - s.inFlight == Total(s.callers, Passing)
      && ((forall i :: 0 <= i < |s.callers| ==> Over(s.callers[i])) ==> s.slots == 0 == s.inFlight)
  {
    var init := Initial(capacity, callers);
    TotalZero(init.callers, Slot);
    TotalZero(init.callers, Exchange);
    RunKeepsAccounted(init, events);
    var s := Run(init, events).value;
    TotalSplits(s.callers, Slot, Exchange, Passing);
    if forall i :: 0 <= i < |s.callers| ==> Over(s.callers[i]) {
      TotalZero(s.callers, Slot);
    }
  }

  /** The router calls an account free when its counter is below its capacity. That
      never misses a free slot, and it is exact when no request is between taking a
      slot and counting itself or between discounting itself and giving it back. */
  lemma FreeMeansFreeSlotIff(s: State)
    requires Accounted(s)
    ensures s.slots < s.capacity ==> s.inFlight < s.capacity
    ensures s.slots < s.capacity <==> s.inFlight + Total(s.callers, Passing) < s.capacity
  {
    TotalSplits(s.callers, Slot, Exchange, Passing);
  }

  /** A request that arrives or waits gets a slot exactly if one is free; it waits only
      while none is. A canceled one changes neither the slots nor the counter. */
  lemma SlotsGoToWhoAsks(s: State, i: nat)
    requires i < |s.callers|
    ensures s.callers[i].Idle? ==>
              var t := Step(s, Arrive(i));
              t.Some? && t.value.callers[i] == if s.slots < s.capacity then Holding else Queued
    ensures s.callers[i].Queued? ==>
              && (Step(s, Admit(i)).Some? <==> s.slots < s.capacity)
              && Step(s, Cancel(i)) == Some(s.(callers := s.callers[i := Cancelled]))
  {
  }

  /** Callers arriving one after the other. */
  function Arrivals(from: nat, n: nat): (events: seq<Event>)
    ensures |events| == n
  {
    seq(n, i requires 0 <= i < n => Arrive(from + i))
  }

  lemma {:induction false} ArrivalsTakeSlots(s: State, from: nat, n: nat)
    requires 0 <= s.slots && s.slots + n <= s.capacity && from + n <= |s.callers|
    requires forall i :: from <= i < |s.callers| ==> s.callers[i].Idle?
    ensures var t := Run(s, Arrivals(from, n));
      t.Some? && t.value.slots == s.slots + n && t.value.inFlight == s.inFlight && t.value.capacity == s.capacity
    decreases n
  {
    if n > 0 {
      assert Arrivals(from, n)[0] == Arrive(from) && Arrivals(from, n)[1..] == Arrivals(from + 1, n - 1);
      ArrivalsTakeSlots(Step(s, Arrive(from)).value, from + 1, n - 1);
    }
  }

  /** For every capacity there is a reachable state in which all slots are taken and the
      counter is still 0, so that the account looks free. */
  lemma FullCanLookFree(capacity: nat, callers: nat)
    requires 1 <= capacity <= callers
    ensures var t := Run(Initial(capacity, callers), Arrivals(0, capacity));
      t.Some? && t.value.slots == t.value.capacity == capacity && t.value.inFlight == 0 < t.value.capacity
  {
    ArrivalsTakeSlots(Initial(capacity, callers), 0, capacity);
  }

  /** Steps a request needs at most, cancellation aside. */
  function Remaining(p: Phase): nat {
    match p
    case Idle => 5
    case Queued => 4
    case Holding => 3
    case Counted => 2
    case Uncounted => 1
    case Served => 0
    case Cancelled => 0
  }

  lemma Progress(s: State) returns (e: Event)
    requires Accounted(s) && s.capacity >= 1 && exists i :: 0 <= i < |s.callers| && !Over(s.callers[i])
    ensures Step(s, e).Some? && !e.Cancel?
    ensures Total(Step(s, e).value.callers, Remaining) < Total(s.callers, Remaining)
  {
    var i: nat;
    if s.slots > 0 {
      i := TotalPositive(s.callers, Slot);
      e := match s.callers[i]
        case Holding => Count(i)
        case Counted => Discount(i)
        case _ => Release(i);
    } else {
      i :| 0 <= i < |s.callers| && !Over(s.callers[i]);
      TotalUpdate(s.callers, i, s.callers[i], Slot);
      e := if s.callers[i].Idle? then Arrive(i) else Admit(i);
    }
    TotalUpdate(s.callers, i, Step(s, e).value.callers[i], Remaining);
  }

  /** No slot is ever lost: from every reachable state there is a schedule, in which
      nobody gives up, that serves every request not cancelled before. */
  lemma {:induction false} EveryoneCanBeServed(s: State) returns (rest: seq<Event>)
    requires Accounted(s) && s.capacity >= 1
    ensures Run(s, rest).Some?
    ensures var t := Run(s, rest).value;
      |t.callers| == |s.callers| && forall i :: 0 <= i < |t.callers| ==>
        t.callers[i] == if s.callers[i].Cancelled? then Cancelled else Served
    decreases Total(s.callers, Remaining)
  {
    if exists i :: 0 <= i < |s.callers| && !Over(s.callers[i]) {
      var e := Progress(s);
      StepKeepsAccounted(s, e);
      var more := EveryoneCanBeServed(Step(s, e).value);
      rest := [e] + more;
      assert rest[1..] == more;
    } else {
      rest := [];
    }
  }
}
