/** The candidate pipeline of one routing decision: region base, usability with
    threshold relaxation, model support and free slots. */
module Candidates {
  import opened Common
  import opened Accounts

  function InRegion(region: string): Account -> bool { acc => AccountRegion(acc) == region }

  function Admitted(exclude: set<string>): Account -> bool { (acc: Account) => acc.id !in exclude }

  function UsableBy(exclude: set<string>, view: View, applyThreshold: bool): Account -> bool {
    acc => Usable(acc, exclude, view, applyThreshold)
  }

  function MayServe(view: View, model: string): Account -> bool { acc => !KnownUnsupported(acc, view, model) }

  function HasFreeSlot(view: View): Account -> bool { acc => NotSaturated(acc, view) }

  function RegionBase(accounts: seq<Account>, filter: RegionFilter): seq<Account> {
    match filter
    case RegionCN => Filter(accounts, InRegion("cn"))
    case RegionGlobal => Filter(accounts, InRegion("global"))
    case RegionAuto => accounts
    case RegionDefault => OrElse(Filter(accounts, InRegion("cn")), accounts)
  }

  function OrElse<T>(preferred: seq<T>, fallback: seq<T>): seq<T> {
    if |preferred| > 0 then preferred else fallback
  }

  /** The usable accounts of the base; when there is none, the whole non-excluded
      base provided the credit threshold alone rules it out. */
  function UsableOrRelaxed(base: seq<Account>, exclude: set<string>, view: View): seq<Account> {
    var strict := Filter(base, UsableBy(exclude, view, true));
    var relaxed := Filter(base, UsableBy(exclude, view, false));
    var eligible := |Filter(base, Admitted(exclude))|;
    if |strict| == 0 && eligible > 0 && |relaxed| == eligible then relaxed else strict
  }

  /** The accounts a request may be sent to, in pool order. */
  function PickFrom(view: View, model: string, filter: RegionFilter, exclude: set<string>): seq<Account> {
    var candidates := UsableOrRelaxed(RegionBase(view.accounts, filter), exclude, view);
    var supporting := OrElse(Filter(candidates, MayServe(view, model)), candidates);
    OrElse(Filter(supporting, HasFreeSlot(view)), supporting)
  }

  lemma RegionBaseMembers(accounts: seq<Account>, filter: RegionFilter, acc: Account)
    ensures acc in RegionBase(accounts, filter) <==> InRegionBase(acc, accounts, filter)
  {
    var cn := Filter(accounts, InRegion("cn"));
    FilterMembers(accounts, InRegion("cn"));
    FilterMembers(accounts, InRegion("global"));
    if filter == RegionDefault && |cn| == 0 {
      forall other | other in accounts
        ensures AccountRegion(other) != "cn"
      {
        assert other in cn <==> InRegion("cn")(other);
      }
    } else if filter == RegionDefault {
      assert cn[0] in cn;
    }
  }

  /** What distinguishes usability without the threshold from usability with it. */
  lemma UsableMeaning(acc: Account, exclude: set<string>, view: View)
    ensures Usable(acc, exclude, view, false) <==> acc.id !in exclude && !Cooling(acc, view) && !Exhausted(acc, view)
    ensures Usable(acc, exclude, view, true) <==> Usable(acc, exclude, view, false) && !LowCredit(acc, view)
  {
  }

  lemma {:induction false} FilterSameCount<T(!new)>(s: seq<T>, p: T -> bool, q: T -> bool)
    requires forall x :: p(x) ==> q(x)
    ensures |Filter(s, p)| <= |Filter(s, q)|
    ensures |Filter(s, p)| == |Filter(s, q)| <==> forall x :: x in s && q(x) ==> p(x)
  {
    if s != [] {
      FilterMembers(s[..|s| - 1], p);
      FilterSameCount(s[..|s| - 1], p, q);
      assert s == s[..|s| - 1] + [s[|s| - 1]];
    }
  }

  /** Every non-excluded account of the base is healthy but low on credit. */
  ghost predicate ThresholdAlone(view: View, filter: RegionFilter, exclude: set<string>) {
    && (exists acc :: InRegionBase(acc, view.accounts, filter) && acc.id !in exclude)
    && forall acc :: InRegionBase(acc, view.accounts, filter) && acc.id !in exclude ==>
                       !Cooling(acc, view) && !Exhausted(acc, view) && LowCredit(acc, view)
  }

  /** The relaxation applies exactly when the threshold alone rules everybody out. */
  lemma RelaxesIff(view: View, filter: RegionFilter, exclude: set<string>)
    ensures var base := RegionBase(view.accounts, filter);
            var strict, relaxed := Filter(base, UsableBy(exclude, view, true)),
                Filter(base, UsableBy(exclude, view, false));
            var eligible := Filter(base, Admitted(exclude));
            (|strict| == 0 && |eligible| > 0 && |relaxed| == |eligible|) <==> ThresholdAlone(view, filter, exclude)
  {
    var base := RegionBase(view.accounts, filter);
    var relaxed, eligible := Filter(base, UsableBy(exclude, view, false)), Filter(base, Admitted(exclude));
    hide RegionBase, Usable, InRegionBase, Filter;
    forall a
      ensures a in base <==> InRegionBase(a, view.accounts, filter)
      ensures UsableBy(exclude, view, false)(a) <==> Admitted(exclude)(a) && !Cooling(a, view) && !Exhausted(a, view)
      ensures UsableBy(exclude, view, true)(a) <==> UsableBy(exclude, view, false)(a) && !LowCredit(a, view)
    {
      RegionBaseMembers(view.accounts, filter, a);
      UsableMeaning(a, exclude, view);
    }
    hide Cooling, Exhausted, LowCredit;
    FilterSameCount(base, UsableBy(exclude, view, false), Admitted(exclude));
    FilterEmptyIff(base, UsableBy(exclude, view, true));
    FilterEmptyIff(base, Admitted(exclude));
  }

  lemma UsableOrRelaxedMembers(view: View, filter: RegionFilter, exclude: set<string>, acc: Account)
    ensures acc in UsableOrRelaxed(RegionBase(view.accounts, filter), exclude, view) <==>
            && InRegionBase(acc, view.accounts, filter)
            && Usable(acc, exclude, view, false)
            && (LowCredit(acc, view) ==> ThresholdAlone(view, filter, exclude))
  {
    var base := RegionBase(view.accounts, filter);
    RelaxesIff(view, filter, exclude);
    RegionBaseMembers(view.accounts, filter, acc);
    FilterMembers(base, UsableBy(exclude, view, true));
    FilterMembers(base, UsableBy(exclude, view, false));
    UsableMeaning(acc, exclude, view);
  }

  /** Soundness of the pipeline. Whoever can be picked is in the region base, not
      excluded, not cooling and not exhausted; it is low on credit only when the
      threshold alone rules out every non-excluded account of the base; it is
      known not to serve the model only when no candidate may; and it is
      saturated only when every candidate that may serve the model is. */
  lemma PickFromSound(view: View, model: string, filter: RegionFilter, exclude: set<string>, acc: Account)
    requires acc in PickFrom(view, model, filter, exclude)
    ensures InRegionBase(acc, view.accounts, filter) && acc.id !in exclude
    ensures !Cooling(acc, view) && !Exhausted(acc, view)
    ensures LowCredit(acc, view) ==> ThresholdAlone(view, filter, exclude)
    ensures var candidates := UsableOrRelaxed(RegionBase(view.accounts, filter), exclude, view);
            && (KnownUnsupported(acc, view, model) ==> forall c :: c in candidates ==> KnownUnsupported(c, view, model))
            && (!NotSaturated(acc, view) ==>
                 forall c :: c in candidates && (KnownUnsupported(c, view, model) ==>
                     KnownUnsupported(acc, view, model))
                             ==> !NotSaturated(c, view))
  {
    var candidates := UsableOrRelaxed(RegionBase(view.accounts, filter), exclude, view);
    var may := Filter(candidates, MayServe(view, model));
    var supporting := OrElse(may, candidates);
    FilterMembers(candidates, MayServe(view, model));
    FilterMembers(supporting, HasFreeSlot(view));
    UsableOrRelaxedMembers(view, filter, exclude, acc);
    UsableMeaning(acc, exclude, view);
    forall c | c in candidates && (KnownUnsupported(acc, view, model) || !KnownUnsupported(c, view, model))
      ensures c in supporting
    {
      assert MayServe(view, model)(c) == !KnownUnsupported(c, view, model);
      assert MayServe(view, model)(acc) == !KnownUnsupported(acc, view, model);
    }
    if KnownUnsupported(acc, view, model) {
      assert !MayServe(view, model)(acc);
      assert supporting == candidates && |may| == 0;
      forall c | c in candidates
        ensures KnownUnsupported(c, view, model)
      {
        assert c !in may;
        assert !MayServe(view, model)(c);
      }
    }
    if !NotSaturated(acc, view) {
      assert !HasFreeSlot(view)(acc);
      var free := Filter(supporting, HasFreeSlot(view));
      assert |free| == 0;
      forall c | c in supporting
        ensures !NotSaturated(c, view)
      {
        assert c !in free;
        assert !HasFreeSlot(view)(c);
      }
    }
  }

  /** Completeness: there is somebody to pick exactly when some account of the base
      is usable or the threshold is all that stands in the way. */
  lemma PickFromNonemptyIff(view: View, model: string, filter: RegionFilter, exclude: set<string>)
    ensures PickFrom(view, model, filter, exclude) != [] <==>
            (exists acc :: InRegionBase(acc, view.accounts, filter) && Usable(acc, exclude, view, true)) ||
            ThresholdAlone(view, filter, exclude)
  {
    var candidates := UsableOrRelaxed(RegionBase(view.accounts, filter), exclude, view);
    if candidates != [] {
      var acc := candidates[0];
      UsableOrRelaxedMembers(view, filter, exclude, acc);
      UsableMeaning(acc, exclude, view);
    }
    if acc :| InRegionBase(acc, view.accounts, filter) && Usable(acc, exclude, view, true) {
      UsableOrRelaxedMembers(view, filter, exclude, acc);
      UsableMeaning(acc, exclude, view);
    }
    if ThresholdAlone(view, filter, exclude) {
      var acc :| InRegionBase(acc, view.accounts, filter) && acc.id !in exclude;
      UsableOrRelaxedMembers(view, filter, exclude, acc);
      UsableMeaning(acc, exclude, view);
    }
  }

  lemma {:induction false} FilterDistinct(cs: seq<Account>, keep: Account -> bool)
    requires DistinctIds(cs)
    ensures DistinctIds(Filter(cs, keep))
  {
    if cs != [] {
      FilterDistinct(cs[..|cs| - 1], keep);
      FilterMembers(cs[..|cs| - 1], keep);
      assert forall acc :: acc in cs[..|cs| - 1] ==> acc.id != cs[|cs| - 1].id;
    }
  }

  // ---- Who the candidates are ----

  /** Candidates are some of the pool, in pool order. */
  ghost predicate Offered(pool: seq<Account>, cs: seq<Account>) {
    exists keep: Account -> bool :: cs == Filter(pool, keep)
  }

  lemma PoolIsOffered(pool: seq<Account>)
    ensures Offered(pool, pool)
  {
    var keep: Account -> bool := acc => true;
    FilterKeepsAllIff(pool, keep);
    assert Filter(pool, keep) == pool;
  }

  lemma OfferedOfOffered(pool: seq<Account>, cs: seq<Account>, keep: Account -> bool)
    requires Offered(pool, cs)
    ensures Offered(pool, Filter(cs, keep))
  {
    var first: Account -> bool :| cs == Filter(pool, first);
    var both: Account -> bool := acc => first(acc) && keep(acc);
    FilterTwice(pool, first, keep, both);
    assert Filter(cs, keep) == Filter(pool, both);
  }

  lemma {:induction false} FilterTwice(pool: seq<Account>, first: Account -> bool, second: Account -> bool,
                                       both: Account -> bool)
    requires forall acc :: both(acc) <==> first(acc) && second(acc)
    ensures Filter(Filter(pool, first), second) == Filter(pool, both)
  {
    if pool != [] {
      var init, last := pool[..|pool| - 1], pool[|pool| - 1];
      FilterTwice(init, first, second, both);
      if first(last) {
        var kept := Filter(init, first);
        assert (kept + [last])[..|kept|] == kept;
      }
    }
  }

  /** Every routing decision offers some of the pool in pool order. */
  lemma PickFromIsOffered(view: View, model: string, filter: RegionFilter, exclude: set<string>)
    ensures Offered(view.accounts, PickFrom(view, model, filter, exclude))
  {
    hide Offered;
    var pool := view.accounts;
    PoolIsOffered(pool);
    OfferedOfOffered(pool, pool, InRegion("cn"));
    OfferedOfOffered(pool, pool, InRegion("global"));
    var base := RegionBase(pool, filter);
    OfferedOfOffered(pool, base, UsableBy(exclude, view, true));
    OfferedOfOffered(pool, base, UsableBy(exclude, view, false));
    var candidates := UsableOrRelaxed(base, exclude, view);
    OfferedOfOffered(pool, candidates, MayServe(view, model));
    var supporting := OrElse(Filter(candidates, MayServe(view, model)), candidates);
    OfferedOfOffered(pool, supporting, HasFreeSlot(view));
  }

  /** In the region base, not excluded, healthy, and low on credit only under relaxation. */
  ghost predicate IsEligible(acc: Account, view: View, filter: RegionFilter, exclude: set<string>) {
    && InRegionBase(acc, view.accounts, filter) && acc.id !in exclude
    && !Cooling(acc, view) && !Exhausted(acc, view)
    && (LowCredit(acc, view) ==> ThresholdAlone(view, filter, exclude))
  }

  /** Of those, the ones that may serve the model, or all if none may. */
  ghost predicate IsSupporting(acc: Account, view: View, model: string, filter: RegionFilter, exclude: set<string>) {
    && IsEligible(acc, view, filter, exclude)
    && (KnownUnsupported(acc, view, model) ==>
          forall c :: IsEligible(c, view, filter, exclude) ==> KnownUnsupported(c, view, model))
  }

  /** Of those, the ones with a free slot, or all if none has one. */
  ghost predicate IsCandidate(acc: Account, view: View, model: string, filter: RegionFilter, exclude: set<string>) {
    && IsSupporting(acc, view, model, filter, exclude)
    && (!NotSaturated(acc, view) ==>
          forall c :: IsSupporting(c, view, model, filter, exclude) ==> !NotSaturated(c, view))
  }

  lemma OrElseMembers(cs: seq<Account>, keep: Account -> bool, acc: Account)
    ensures acc in OrElse(Filter(cs, keep), cs) <==> acc in cs && (keep(acc) || forall c :: c in cs ==> !keep(c))
  {
    FilterMembers(cs, keep);
    FilterEmptyIff(cs, keep);
  }

  /** Exactly the candidates are offered. */
  lemma PickFromMembers(view: View, model: string, filter: RegionFilter, exclude: set<string>, acc: Account)
    ensures acc in PickFrom(view, model, filter, exclude) <==> IsCandidate(acc, view, model, filter, exclude)
  {
    var eligible := UsableOrRelaxed(RegionBase(view.accounts, filter), exclude, view);
    var supporting := OrElse(Filter(eligible, MayServe(view, model)), eligible);
    forall c
      ensures c in eligible <==> IsEligible(c, view, filter, exclude)
    {
      UsableOrRelaxedMembers(view, filter, exclude, c);
      UsableMeaning(c, exclude, view);
    }
    hide UsableOrRelaxed, OrElse, IsEligible, RegionBase, KnownUnsupported, NotSaturated;
    forall c
      ensures c in supporting <==> IsSupporting(c, view, model, filter, exclude)
      ensures MayServe(view, model)(c) == !KnownUnsupported(c, view, model)
    {
      OrElseMembers(eligible, MayServe(view, model), c);
    }
    hide IsSupporting;
    OrElseMembers(supporting, HasFreeSlot(view), acc);
    assert forall c :: HasFreeSlot(view)(c) == NotSaturated(c, view);
  }

  lemma {:induction false} FilterAlike(cs: seq<Account>, p: Account -> bool, q: Account -> bool)
    requires forall c :: c in cs ==> p(c) == q(c)
    ensures Filter(cs, p) == Filter(cs, q)
  {
    if cs != [] {
      FilterAlike(cs[..|cs| - 1], p, q);
    }
  }

  ghost function CandidateTest(view: View, model: string, filter: RegionFilter, exclude: set<string>): Account -> bool {
    acc => IsCandidate(acc, view, model, filter, exclude)
  }

  /** The pipeline is one filter of the pool: every candidate is offered, as often as the
      pool lists it and in pool order, and nobody else is. */
  lemma PickFromIsFilter(view: View, model: string, filter: RegionFilter, exclude: set<string>)
    ensures PickFrom(view, model, filter, exclude) ==
            Filter(view.accounts, CandidateTest(view, model, filter, exclude))
  {
    hide PickFrom, IsCandidate;
    PickFromIsOffered(view, model, filter, exclude);
    var keep: Account -> bool :| PickFrom(view, model, filter, exclude) == Filter(view.accounts, keep);
    FilterMembers(view.accounts, keep);
    var test := CandidateTest(view, model, filter, exclude);
    forall c | c in view.accounts
      ensures keep(c) == test(c)
    {
      PickFromMembers(view, model, filter, exclude, c);
    }
    FilterAlike(view.accounts, keep, test);
  }
}
