/** What becomes of one chat request, as a function of the request, the router's state
    and the upstream's script: which accounts are tried, what each attempt brings in,
    and what the client, the usage sink and the router get out of it. */
module Failover {
  import opened Common
  import opened Accounts
  import opened RouterSpec
  import opened Upstream
  import opened ResponseSpec
  import C = Candidates
  import S = StickySessions
  import D = Delivery

  const MAX_FAILOVER_ATTEMPTS := 16
  const FAILURE_COOLDOWN := 300 * SECOND

  /** The request and everything outside it: the clock and pool at each routing
      decision, the key store, what an attempt may die of before it reaches the
      upstream, the clock at each failure and at success, and the upstream itself. */
  datatype Request = Request(stickyKey: string, model: string, filter: RegionFilter, stream: bool, options: Options,
                             maxRetryAccounts: int, keyKnown: nat -> bool, view: nat -> View,
                             preflight: nat -> Option<Error>, failedAt: nat -> int, finishedAt: int, script: Script)

  /** One attempt on one account: the number of its first upstream open, how many opens
      it made, the lines the last of them handed on, and how it ended. */
  datatype Attempt = Attempt(account: string, first: nat, opens: nat, seen: seq<Line>, err: Option<Error>) {
    /** The open its output comes from. */
    function Origin(): nat {
      if opens == 0 then first else first + opens - 1
    }
  }

  /** Attempt n on an account, after so many opens of the upstream. */
  ghost function AttemptOf(req: Request, n: nat, account: string, open: nat): Attempt {
    if req.preflight(n).Some? then Attempt(account, open, 0, [], req.preflight(n))
    else
      var (seen, err, opens) := BroughtIn(req.script, open);
      Attempt(account, open, opens, seen, err)
  }

  /** What the attempt itself writes to the client. */
  function Written(req: Request, a: Attempt): seq<Output> {
    if a.opens == 0 then [] else Out(req.stream, req.options, a.Origin(), a.seen, a.err)
  }

  function UsageOf(a: Attempt): seq<(string, Usage)> {
    if a.err.None? && LastUsage(a.seen).Some? then [(a.account, LastUsage(a.seen).value)] else []
  }

  /** Attempt n failed on the account's credentials before anything was written. */
  predicate HandsOver(req: Request, n: nat, a: Attempt) {
    a.err == Some(AuthError) && Written(req, a) == [] && n < MAX_FAILOVER_ATTEMPTS
  }

  function RoutingOf(req: Request, n: nat, exclude: set<string>): S.Event {
    S.Routed(req.stickyKey, req.model, req.filter, exclude, req.view(n))
  }

  /** Routing decision n: nobody if the key is unknown or the router finds nobody. */
  function Asked(req: Request, n: nat, exclude: set<string>, st: RouterState): (Option<string>, RouterState) {
    if !req.keyKnown(n) then (None, st)
    else
      var (acc, st') := Picked(st, req.stickyKey, req.model, req.filter, exclude, req.view(n));
      (if acc.Some? then Some(acc.value.id) else None, st')
  }

  /** The decision after attempt n handed over: no account beyond the retry budget. */
  function AskedNext(req: Request, n: nat, exclude: set<string>, st: RouterState): (Option<string>, RouterState) {
    if |exclude| >= req.maxRetryAccounts then (None, st) else Asked(req, n + 1, exclude, st)
  }

  /** The attempts from number n on, and the router's state after their decisions. */
  ghost function CourseFrom(req: Request, n: nat, account: string, exclude: set<string>, open: nat, st: RouterState)
    : (res: (seq<Attempt>, RouterState))
    ensures |res.0| > 0
    decreases MAX_FAILOVER_ATTEMPTS - n
  {
    var a := AttemptOf(req, n, account, open);
    if !HandsOver(req, n, a) then ([a], st)
    else
      var (next, st') := AskedNext(req, n, exclude + {account}, st);
      if next.None? then ([a], st')
      else
        var (rest, end) := CourseFrom(req, n + 1, next.value, exclude + {account}, open + a.opens, st');
        ([a] + rest, end)
  }

  /** All attempts for a request; none without a route. */
  ghost function Course(req: Request, st: RouterState): (seq<Attempt>, RouterState) {
    var (first, st') := Asked(req, 0, {}, st);
    if first.None? then ([], st') else CourseFrom(req, 0, first.value, {}, 0, st')
  }

  function LastOf(course: seq<Attempt>): Attempt
    requires course != []
  {
    course[|course| - 1]
  }

  predicate Served(course: seq<Attempt>) {
    course != [] && LastOf(course).err.None?
  }

  /** What the client gets: the last attempt's output, or its error by status. */
  function Answer(req: Request, course: seq<Attempt>): seq<Output> {
    if course == [] then [NoRoute]
    else
      var a := LastOf(course);
      if a.err.Some? && Written(req, a) == [] then [ErrorStatus(a.err.value)] else Written(req, a)
  }

  /** What the usage sink gets. */
  function Usages(course: seq<Attempt>): seq<(string, Usage)> {
    if course == [] then [] else UsageOf(LastOf(course))
  }

  /** The cooldown written for an account whose attempt n failed. */
  function Cooldown(req: Request, n: nat, account: string): (string, int) {
    (account, UnixSeconds(req.failedAt(n) + FAILURE_COOLDOWN))
  }

  /** One cooldown for every attempt of the course that handed over, numbered from n. */
  function Cooldowns(req: Request, n: nat, course: seq<Attempt>): seq<(string, int)>
    decreases |course|
  {
    if course == [] then []
    else
      (if HandsOver(req, n, course[0]) then [Cooldown(req, n, course[0].account)] else [])
      + Cooldowns(req, n + 1, course[1..])
  }

  /** What a request leaves of the router: the state after its last decision, with a
      binding to the serving account recorded in case of success. */
  ghost predicate Leaves(req: Request, st: RouterState, st': RouterState) {
    var (course, end) := Course(req, st);
    if Served(course) && req.stickyKey != "" then Binds(end, req.stickyKey, LastOf(course).account, req.finishedAt, st')
    else st' == end
  }

  // ---- What holds of every course ----

  function AccountsOf(course: seq<Attempt>): set<string> {
    set a | a in course :: a.account
  }

  /** How many opens the first k attempts made. */
  function OpensBefore(course: seq<Attempt>, k: nat): nat
    requires k <= |course|
  {
    if k == 0 then 0 else OpensBefore(course, k - 1) + course[k - 1].opens
  }

  lemma {:induction false} OpensBeforeShift(a: Attempt, rest: seq<Attempt>, k: nat)
    requires k <= |rest|
    ensures OpensBefore([a] + rest, k + 1) == a.opens + OpensBefore(rest, k)
  {
    if k > 0 {
      OpensBeforeShift(a, rest, k - 1);
    }
  }

  /** Attempt i of the course is what the upstream's script makes of it. */
  ghost predicate FollowsScript(req: Request, n: nat, open: nat, course: seq<Attempt>, i: nat)
    requires i < |course|
  {
    course[i] == AttemptOf(req, n + i, course[i].account, open + OpensBefore(course, i))
  }

  lemma {:induction false} AttemptsFollowScript(req: Request, n: nat, account: string, exclude: set<string>,
      open: nat, st: RouterState)
    requires n <= MAX_FAILOVER_ATTEMPTS
    ensures var course := CourseFrom(req, n, account, exclude, open, st).0;
      && n + |course| <= MAX_FAILOVER_ATTEMPTS + 1
      && course[0].account == account
      && (forall i :: 0 <= i < |course| ==> FollowsScript(req, n, open, course, i))
      && forall i :: 0 <= i < |course| - 1 ==> HandsOver(req, n + i, course[i])
    decreases MAX_FAILOVER_ATTEMPTS - n
  {
    hide AttemptOf, HandsOver, AskedNext, FollowsScript;
    var course := CourseFrom(req, n, account, exclude, open, st).0;
    var a := AttemptOf(req, n, account, open);
    assert course[0] == a && a.account == account && a.first == open by {
      AttemptNames(req, n, account, open);
    }
    FollowsAtOnce(req, n, open, course);
    var (next, st') := AskedNext(req, n, exclude + {account}, st);
    if HandsOver(req, n, a) && next.Some? {
      assert n < MAX_FAILOVER_ATTEMPTS by {
        HandsOverEarly(req, n, a);
      }
      AttemptsFollowScript(req, n + 1, next.value, exclude + {account}, open + a.opens, st');
      var rest := CourseFrom(req, n + 1, next.value, exclude + {account}, open + a.opens, st').0;
      assert course == [a] + rest;
      forall i | 0 < i < |course|
        ensures FollowsScript(req, n, open, course, i)
        ensures i < |course| - 1 ==> HandsOver(req, n + i, course[i])
      {
        FollowsShift(req, n, open, a, rest, i);
        assert n + 1 + (i - 1) == n + i && course[i] == rest[i - 1];
      }
    }
  }

  lemma FollowsAtOnce(req: Request, n: nat, open: nat, course: seq<Attempt>)
    requires course != [] && course[0] == AttemptOf(req, n, course[0].account, open)
    ensures FollowsScript(req, n, open, course, 0)
  {
    hide AttemptOf;
  }

  lemma FollowsShift(req: Request, n: nat, open: nat, a: Attempt, rest: seq<Attempt>, i: nat)
    requires 0 < i <= |rest| && FollowsScript(req, n + 1, open + a.opens, rest, i - 1)
    ensures FollowsScript(req, n, open, [a] + rest, i)
  {
    hide AttemptOf;
    OpensBeforeShift(a, rest, i - 1);
    assert n + 1 + (i - 1) == n + i;
  }

  lemma HandsOverEarly(req: Request, n: nat, a: Attempt)
    requires HandsOver(req, n, a)
    ensures n < MAX_FAILOVER_ATTEMPTS
  {
  }

  /** The last response an attempt reads. */
  ghost function LastResponse(req: Request, open: nat): Response {
    req.script.response(if BroughtIn(req.script, open).2 == 2 then open + 1 else open)
  }

  /** Exactly these attempts hand over to another account: those whose credentials are
      refused before the upstream is reached, or by the lines of the last response it
      reads, provided nothing was shown to a streaming client, and not beyond the limit. */
  lemma HandsOverIff(req: Request, n: nat, account: string, open: nat)
    ensures HandsOver(req, n, AttemptOf(req, n, account, open)) <==>
            && n < 16
            && if req.preflight(n).Some? then req.preflight(n) == Some(AuthError)
               else
                 && EndsIn(LastResponse(req, open), AuthError)
                 && (!req.stream || D.NothingToShow(DeltasOf(Delivered(LastResponse(req, open)))))
  {
    hide Out, EndsIn, FailsEarly, D.NothingToShow, DeltasOf, Delivered, BroughtIn, Ending;
    RetriedIff(req.script, open);
    var a := AttemptOf(req, n, account, open);
    if req.preflight(n).None? {
      WritesNothingIff(req.stream, req.options, a.Origin(), a.seen, a.err);
      var r := req.script.response(open);
      EarlyIsBusy(r);
    }
  }

  /** A response that ends early as busy does not end on credentials. */
  lemma EarlyIsBusy(r: Response)
    ensures FailsEarly(r, BusyError) ==> !EndsIn(r, AuthError)
  {
    EndingIff(r, BusyError);
    EndingIff(r, AuthError);
  }

  lemma AttemptNames(req: Request, n: nat, account: string, open: nat)
    ensures AttemptOf(req, n, account, open).account == account && AttemptOf(req, n, account, open).first == open
  {
  }

  /** The router never returns an excluded account. */
  lemma AskedIsNew(req: Request, n: nat, exclude: set<string>, st: RouterState)
    ensures var next := Asked(req, n, exclude, st).0; next.Some? ==> next.value !in exclude
  {
    if Asked(req, n, exclude, st).0.Some? {
      PickSound(st, req.stickyKey, req.model, req.filter, exclude, req.view(n));
    }
  }

  ghost predicate Distinct(course: seq<Attempt>) {
    forall i, j :: 0 <= i < j < |course| ==> course[i].account != course[j].account
  }

  lemma {:induction false} AccountsAreDistinct(req: Request, n: nat, account: string, exclude: set<string>, open: nat,
      st: RouterState)
    requires n <= MAX_FAILOVER_ATTEMPTS && account !in exclude
    ensures var course := CourseFrom(req, n, account, exclude, open, st).0;
      && Distinct(course) && AccountsOf(course) !! exclude
      && (|course| == 1 || |exclude| + |course| <= req.maxRetryAccounts)
    decreases MAX_FAILOVER_ATTEMPTS - n
  {
    hide AttemptOf, HandsOver, Asked;
    AttemptNames(req, n, account, open);
    var course := CourseFrom(req, n, account, exclude, open, st).0;
    var a := AttemptOf(req, n, account, open);
    var (next, st') := AskedNext(req, n, exclude + {account}, st);
    if HandsOver(req, n, a) && next.Some? {
      HandsOverEarly(req, n, a);
      AskedIsNew(req, n + 1, exclude + {account}, st);
      AccountsAreDistinct(req, n + 1, next.value, exclude + {account}, open + a.opens, st');
      var rest := CourseFrom(req, n + 1, next.value, exclude + {account}, open + a.opens, st').0;
      assert course == [a] + rest;
      assert forall i :: 0 <= i < |rest| ==> rest[i].account in AccountsOf(rest);
    }
  }

  /** The attempts of every request, end to end: pairwise distinct accounts, within the
      retry budget; each attempt as the upstream's script has it, with opens numbered
      through and at most two of them; and another account only after an
      authentication error before anything was written. */
  lemma EveryCourse(req: Request, st: RouterState)
    ensures var course := Course(req, st).0;
      && Distinct(course)
      && |course| <= MAX_FAILOVER_ATTEMPTS + 1 && (|course| <= 1 || |course| <= req.maxRetryAccounts)
      && (forall i :: 0 <= i < |course| ==> FollowsScript(req, 0, 0, course, i) && course[i].opens <= 2)
      && forall i :: 0 <= i < |course| - 1 ==> course[i].err == Some(AuthError) && Written(req, course[i]) == []
  {
    hide Asked, CourseFrom, Written;
    var (first, st') := Asked(req, 0, {}, st);
    if first.Some? {
      AttemptsFollowScript(req, 0, first.value, {}, 0, st');
      AccountsAreDistinct(req, 0, first.value, {}, 0, st');
      var course := Course(req, st).0;
      forall i | 0 <= i < |course|
        ensures course[i].opens <= 2
      {
        assert FollowsScript(req, 0, 0, course, i);
      }
      forall i | 0 <= i < |course| - 1
        ensures course[i].err == Some(AuthError) && Written(req, course[i]) == []
      {
        assert HandsOver(req, 0 + i, course[i]);
      }
    }
  }

  lemma LastIsOpenedLast(req: Request, st: RouterState)
    requires Course(req, st).0 != []
    ensures var course := Course(req, st).0;
      && (LastOf(course).opens > 0 ==> LastOf(course).Origin() + 1 == OpensBefore(course, |course|))
      && (LastOf(course).err.None? ==> LastOf(course).opens > 0)
  {
    hide Course;
    EveryCourse(req, st);
    var course := Course(req, st).0;
    assert FollowsScript(req, 0, 0, course, |course| - 1);
  }

  /** The client is answered exactly once: all model output comes from one open, the
      last one made, there is one conclusion, at the end, and an error is told either
      by status, before any output, or in the stream. */
  lemma AnsweredOnce(req: Request, st: RouterState)
    ensures var course := Course(req, st).0;
      var answer := Answer(req, course);
      && OneConclusion(answer)
      && (course != [] ==> AllFrom(answer, LastOf(course).Origin()))
      && (course != [] && LastOf(course).opens > 0 ==> LastOf(course).Origin() + 1 == OpensBefore(course, |course|))
      && (Served(course) ==> answer[|answer| - 1].Body? || answer[|answer| - 1] == DoneMarker)
      && (course != [] && !Served(course) ==>
           var e := LastOf(course).err.value; answer == [ErrorStatus(e)] || answer[|answer| - 1] == ErrorChunk(e))
      && (course == [] <==> answer == [NoRoute])
  {
    hide CourseFrom, Asked, Out;
    var course := Course(req, st).0;
    if course != [] {
      LastIsOpenedLast(req, st);
      hide Course, AttemptOf;
      var a := LastOf(course);
      AttemptOutput(req.stream, req.options, a.Origin(), a.seen, a.err);
    }
  }

  /** Usage is reported at most once, only by a request that was served, for the account
      that served it, and exactly if its stream carried a usage frame. */
  lemma UsageNamesServer(req: Request, st: RouterState)
    ensures var course := Course(req, st).0;
      && |Usages(course)| <= 1
      && (Usages(course) != [] <==> Served(course) && LastUsage(LastOf(course).seen).Some?)
      && (Usages(course) != [] ==> Usages(course)[0] == (LastOf(course).account, LastUsage(LastOf(course).seen).value))
  {
    hide Course;
  }

  /** Every account that handed over, or was to, is cooled down from the time it failed,
      and no other. */
  lemma EveryFailureCools(req: Request, st: RouterState)
    ensures var course := Course(req, st).0;
      var cooled := Cooldowns(req, 0, course);
      && |cooled| == (if course == [] then 0
                      else if HandsOver(req, |course| - 1, LastOf(course)) then |course| else |course| - 1)
      && forall i :: 0 <= i < |cooled| ==> cooled[i] == Cooldown(req, i, course[i].account)
  {
    hide CourseFrom, HandsOver, Asked, Cooldowns, Cooldown;
    var (first, st') := Asked(req, 0, {}, st);
    if first.Some? {
      AttemptsFollowScript(req, 0, first.value, {}, 0, st');
      CooldownsOf(req, 0, CourseFrom(req, 0, first.value, {}, 0, st').0);
    } else {
      NoCooldowns(req, 0);
    }
  }

  /** A cooldown lasts five minutes from the second of the failure: in any view that shows
      it the account is cooling exactly until then, and is no candidate meanwhile. */
  lemma CooldownLasts(req: Request, n: nat, acc: Account, view: View, exclude: set<string>)
    requires acc.id in view.snapshots
    requires (acc.id, view.snapshots[acc.id].cooldownUntil) == Cooldown(req, n, acc.id)
    ensures Cooling(acc, view) <==> UnixSeconds(view.now) < UnixSeconds(req.failedAt(n)) + 300
    ensures UnixSeconds(view.now) < UnixSeconds(req.failedAt(n)) + 300 ==>
              acc !in C.PickFrom(view, req.model, req.filter, exclude)
  {
    assert (req.failedAt(n) + FAILURE_COOLDOWN) / SECOND == req.failedAt(n) / SECOND + 300;
    C.PickFromMembers(view, req.model, req.filter, exclude, acc);
  }

  lemma NoCooldowns(req: Request, n: nat)
    ensures Cooldowns(req, n, []) == []
  {
  }

  lemma {:induction false} CooldownsOf(req: Request, n: nat, course: seq<Attempt>)
    requires course != [] && forall i :: 0 <= i < |course| - 1 ==> HandsOver(req, n + i, course[i])
    ensures var cooled := Cooldowns(req, n, course);
      && |cooled| == (if HandsOver(req, n + |course| - 1, LastOf(course)) then |course| else |course| - 1)
      && forall i :: 0 <= i < |cooled| ==> cooled[i] == Cooldown(req, n + i, course[i].account)
    decreases |course|
  {
    hide HandsOver, Cooldown;
    var rest := course[1..];
    if rest == [] {
      assert Cooldowns(req, n + 1, rest) == [];
    } else {
      assert HandsOver(req, n + 0, course[0]);
      forall i | 0 <= i < |rest| - 1
        ensures HandsOver(req, n + 1 + i, rest[i])
      {
        assert HandsOver(req, n + (i + 1), course[i + 1]);
        assert n + 1 + i == n + (i + 1);
      }
      CooldownsOf(req, n + 1, rest);
      var more := Cooldowns(req, n + 1, rest);
      assert n + 1 + |rest| - 1 == n + |course| - 1;
      assert Cooldowns(req, n, course) == [Cooldown(req, n, course[0].account)] + more;
      forall i | 0 < i < |more| + 1
        ensures more[i - 1] == Cooldown(req, n + i, course[i].account)
      {
        assert n + 1 + (i - 1) == n + i;
      }
    }
  }

  /** There is no route exactly when the key is unknown or the whole pool offers nobody. */
  lemma NoRouteIff(req: Request, st: RouterState)
    ensures Course(req, st).0 == [] <==>
      !req.keyKnown(0)
      || ((forall acc :: InRegionBase(acc, req.view(0).accounts, req.filter) ==> !Usable(acc, {}, req.view(0), true))
          && !C.ThresholdAlone(req.view(0), req.filter, {}))
  {
    hide CourseFrom, Picked;
    PickComplete(st, req.stickyKey, req.model, req.filter, {}, req.view(0));
  }

  // ---- The course as a history of the router ----

  /** The routing decisions of a course from number n + 1 on: the state before each, and
      the accounts it had to leave out. */
  ghost predicate Routes(req: Request, n: nat, exclude: set<string>, course: seq<Attempt>, states: seq<RouterState>,
      i: nat)
    requires i < |course| && i < |states| - 1
  {
    var left := exclude + AccountsOf(course[..i + 1]);
    && req.keyKnown(n + 1 + i) && |left| < req.maxRetryAccounts
    && states[i + 1] == Picked(states[i], req.stickyKey, req.model, req.filter, left, req.view(n + 1 + i)).1
    && var acc := Picked(states[i], req.stickyKey, req.model, req.filter, left, req.view(n + 1 + i)).0;
       if i + 1 < |course| then acc.Some? && acc.value.id == course[i + 1].account else acc.None?
  }

  /** Why no further account was tried. */
  ghost predicate GivesUp(req: Request, n: nat, exclude: set<string>, course: seq<Attempt>, decisions: nat)
    requires course != []
  {
    var last := |course| - 1;
    || !HandsOver(req, n + last, course[last])
    || |exclude + AccountsOf(course)| >= req.maxRetryAccounts
    || !req.keyKnown(n + 1 + last)
    || decisions == |course|
  }

  lemma {:induction false} CourseIsRouted(req: Request, n: nat, account: string, exclude: set<string>, open: nat,
      st: RouterState)
    returns (states: seq<RouterState>)
    requires n <= MAX_FAILOVER_ATTEMPTS
    ensures var (course, end) := CourseFrom(req, n, account, exclude, open, st);
      && |course| <= |states| <= |course| + 1
      && states[0] == st && states[|states| - 1] == end
      && (forall i :: 0 <= i < |states| - 1 ==> Routes(req, n, exclude, course, states, i))
      && GivesUp(req, n, exclude, course, |states| - 1)
    decreases MAX_FAILOVER_ATTEMPTS - n
  {
    hide AttemptOf, HandsOver, Picked, Routes, GivesUp;
    AttemptNames(req, n, account, open);
    var (course, end) := CourseFrom(req, n, account, exclude, open, st);
    var a := AttemptOf(req, n, account, open);
    var left := exclude + {account};
    var (next, st') := AskedNext(req, n, left, st);
    if HandsOver(req, n, a) && next.Some? {
      HandsOverEarly(req, n, a);
      var more := CourseIsRouted(req, n + 1, next.value, left, open + a.opens, st');
      var rest := CourseFrom(req, n + 1, next.value, left, open + a.opens, st').0;
      states := [st] + more;
      assert course == [a] + rest;
      CourseStart(req, n + 1, next.value, left, open + a.opens, st');
      FirstRoute(req, n, exclude, course, states);
      forall i | 0 < i < |states| - 1
        ensures Routes(req, n, exclude, course, states, i)
      {
        RoutesShift(req, n, exclude, a, rest, st, more, i);
      }
      GivesUpShift(req, n, exclude, a, rest, |more| - 1);
    } else {
      var decided := HandsOver(req, n, a) && |left| < req.maxRetryAccounts && req.keyKnown(n + 1);
      states := if decided then [st, st'] else [st];
      if decided {
        FirstRoute(req, n, exclude, course, states);
      }
      EndsHere(req, n, exclude, a, decided);
    }
  }

  /** The first decision of a course, with the state it leaves. */
  lemma FirstRoute(req: Request, n: nat, exclude: set<string>, course: seq<Attempt>, states: seq<RouterState>)
    requires course != [] && |states| > 1
    requires |exclude + {course[0].account}| < req.maxRetryAccounts && req.keyKnown(n + 1)
    requires var (next, st') := AskedNext(req, n, exclude + {course[0].account}, states[0]);
      states[1] == st' && if |course| > 1 then next == Some(course[1].account) else next.None?
    ensures Routes(req, n, exclude, course, states, 0)
  {
    hide Picked;
    assert course[..1] == [course[0]] && AccountsOf([course[0]]) == {course[0].account};
  }

  lemma EndsHere(req: Request, n: nat, exclude: set<string>, a: Attempt, decided: bool)
    requires !decided ==>
      !HandsOver(req, n, a) || |exclude + {a.account}| >= req.maxRetryAccounts || !req.keyKnown(n + 1)
    ensures GivesUp(req, n, exclude, [a], if decided then 1 else 0)
  {
    hide HandsOver;
    assert AccountsOf([a]) == {a.account};
  }

  lemma RoutesShift(req: Request, n: nat, exclude: set<string>, a: Attempt, rest: seq<Attempt>, st: RouterState,
                    more: seq<RouterState>, i: nat)
    requires 0 < i < |more| && i <= |rest|
    requires Routes(req, n + 1, exclude + {a.account}, rest, more, i - 1)
    ensures Routes(req, n, exclude, [a] + rest, [st] + more, i)
  {
    hide Picked;
    AccountsShift(exclude, a, rest[..i]);
    assert ([a] + rest)[..i + 1] == [a] + rest[..i];
    assert n + 1 + 1 + (i - 1) == n + 1 + i;
  }

  lemma GivesUpShift(req: Request, n: nat, exclude: set<string>, a: Attempt, rest: seq<Attempt>, decisions: nat)
    requires rest != [] && GivesUp(req, n + 1, exclude + {a.account}, rest, decisions)
    ensures GivesUp(req, n, exclude, [a] + rest, decisions + 1)
  {
    hide HandsOver;
    AccountsShift(exclude, a, rest);
    assert n + 1 + (|rest| - 1) == n + |rest|;
    assert n + 1 + 1 + (|rest| - 1) == n + 1 + |rest|;
  }

  lemma CourseStart(req: Request, n: nat, account: string, exclude: set<string>, open: nat, st: RouterState)
    ensures CourseFrom(req, n, account, exclude, open, st).0[0].account == account
  {
    AttemptNames(req, n, account, open);
  }

  lemma AccountsShift(exclude: set<string>, a: Attempt, rest: seq<Attempt>)
    ensures exclude + AccountsOf([a] + rest) == exclude + {a.account} + AccountsOf(rest)
  {
    assert forall x :: x in [a] + rest <==> x == a || x in rest;
  }

  /** The router's states during a request and the events between them. */
  ghost predicate Chain(states: seq<RouterState>, events: seq<S.Event>) {
    && |states| == |events| + 1
    && forall i :: 0 <= i < |events| ==> S.Happens(states[i], events[i], states[i + 1])
  }

  lemma ChainGrows(states: seq<RouterState>, events: seq<S.Event>, event: S.Event, st: RouterState)
    requires Chain(states, events) && S.Happens(states[|events|], event, st)
    ensures Chain(states + [st], events + [event]) && (states + [st])[0] == states[0] &&
        (states + [st])[|events| + 1] == st
  {
    hide S.Happens;
  }

  lemma ChainsJoin(before: seq<RouterState>, past: seq<S.Event>, after: seq<RouterState>, events: seq<S.Event>)
    requires Chain(before, past) && Chain(after, events) && before[|past|] == after[0]
    ensures Chain(before + after[1..], past + events)
  {
    hide S.Happens;
  }

  /** The events of a course after its first decision. */
  ghost function LaterEvents(req: Request, n: nat, exclude: set<string>, course: seq<Attempt>,
      k: nat): (events: seq<S.Event>)
    requires k <= |course|
    ensures |events| == k
  {
    seq(k, i requires 0 <= i < k => RoutingOf(req, n + 1 + i, exclude + AccountsOf(course[..i + 1])))
  }

  lemma RoutesAreChain(req: Request, n: nat, exclude: set<string>, course: seq<Attempt>, states: seq<RouterState>)
    requires 0 < |states| <= |course| + 1
    requires forall i :: 0 <= i < |states| - 1 ==> Routes(req, n, exclude, course, states, i)
    ensures Chain(states, LaterEvents(req, n, exclude, course, |states| - 1))
  {
    hide Picked;
    var events := LaterEvents(req, n, exclude, course, |states| - 1);
    forall i | 0 <= i < |events|
      ensures S.Happens(states[i], events[i], states[i + 1])
    {
      assert Routes(req, n, exclude, course, states, i);
    }
  }

  ghost predicate DecidedFor(req: Request, e: S.Event) {
    e.Routed? && e.stickyKey == req.stickyKey && exists k :: e.view == req.view(k)
  }

  /** The decisions of a request, in order. */
  lemma DecisionsAreChain(req: Request, st: RouterState) returns (states: seq<RouterState>, events: seq<S.Event>)
    ensures Chain(states, events) && states[0] == st && states[|events|] == Course(req, st).1
    ensures forall i :: 0 <= i < |events| ==> DecidedFor(req, events[i])
  {
    hide CourseFrom, Picked, Routes;
    var (first, st') := Asked(req, 0, {}, st);
    states, events := [st], [];
    if req.keyKnown(0) {
      ChainGrows(states, events, RoutingOf(req, 0, {}), st');
      states, events := [st, st'], [RoutingOf(req, 0, {})];
      if first.Some? {
        var more := CourseIsRouted(req, 0, first.value, {}, 0, st');
        var course := Course(req, st).0;
        RoutesAreChain(req, 0, {}, course, more);
        ChainsJoin(states, events, more, LaterEvents(req, 0, {}, course, |more| - 1));
        states, events := states + more[1..], events + LaterEvents(req, 0, {}, course, |more| - 1);
      }
    }
  }

  /** A request changes the router by its routing decisions, and by a success recorded
      at the end for its key and the serving account, exactly if it was served and has
      a key. */
  lemma RequestIsChain(req: Request, st: RouterState, st': RouterState)
      returns (states: seq<RouterState>, events: seq<S.Event>)
    requires Leaves(req, st, st')
    ensures Chain(states, events) && states[0] == st && states[|events|] == st'
    ensures var course := Course(req, st).0;
      var binds := Served(course) && req.stickyKey != "";
      && (forall i :: 0 <= i < |events| ==> (events[i].Succeeded? <==> binds && i == |events| - 1))
      && (binds ==>
            |events| > 0 && events[|events| - 1] == S.Succeeded(req.stickyKey, LastOf(course).account, req.finishedAt))
      && forall i :: 0 <= i < |events| && events[i].Routed? ==> DecidedFor(req, events[i])
  {
    hide Course, Binds, Chain;
    states, events := DecisionsAreChain(req, st);
    var course := Course(req, st).0;
    if Served(course) && req.stickyKey != "" {
      var bound := S.Succeeded(req.stickyKey, LastOf(course).account, req.finishedAt);
      ChainGrows(states, events, bound, st');
      states, events := states + [st'], events + [bound];
    }
  }

  /** So a router that serves requests one after the other stays within the sticky
      limits: serving one more continues its history. */
  lemma ServingContinuesHistory(states: seq<RouterState>, events: seq<S.Event>, limit: int, req: Request,
      st': RouterState)
    returns (states': seq<RouterState>, events': seq<S.Event>)
    requires S.History(states, events, limit) && Leaves(req, states[|events|], st')
    requires forall n: nat :: req.view(n).config.stickyLimit == limit
    ensures S.History(states', events', limit) && events <= events' && states <= states'
    ensures states'[|events'|] == st' && (limit >= 1 ==> S.WithinLimits(st'.sticky, limit))
  {
    hide Leaves, S.Happens;
    var more, added := RequestIsChain(req, states[|events|], st');
    ChainsJoin(states, events, more, added);
    states', events' := states + more[1..], events + added;
    assert S.History(states', events', limit);
    if limit >= 1 {
      S.AlwaysWithinLimits(states', events', limit, |events'|);
    }
  }
}
