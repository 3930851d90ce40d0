/** Smooth weighted round-robin: one step on the running weights of a route,
    and the exact fairness of its runs. */
module WeightedRotation {
  import opened Common
  import opened Accounts

  type Running = map<string, int>

  /** Missing entries read as zero. */
  function At(state: Running, id: string): int {
    if id in state then state[id] else 0
  }

  /** The running weights of the candidates, in candidate order. */
  function Vector(state: Running, cs: seq<Account>): (v: seq<int>)
    ensures |v| == |cs| && forall i :: 0 <= i < |cs| ==> v[i] == At(state, cs[i].id)
  {
    seq(|cs|, i requires 0 <= i < |cs| => At(state, cs[i].id))
  }

  function Raise(v: seq<int>, ws: seq<int>): (r: seq<int>)
    requires |v| == |ws|
    ensures |r| == |v| && forall i :: 0 <= i < |v| ==> r[i] == v[i] + ws[i]
  {
    seq(|v|, i requires 0 <= i < |v| => v[i] + ws[i])
  }

  /** What the scan has chosen among the first n raised weights: the first
      largest one if that is positive, and the first candidate otherwise. */
  ghost predicate IsBest(r: seq<int>, n: nat, best: nat, bestWeight: int)
    requires n <= |r|
  {
    && best < |r|
    && (forall j :: 0 <= j < n ==> r[j] <= bestWeight)
    && (bestWeight > 0 ==> best < n && r[best] == bestWeight && forall j :: 0 <= j < best ==> r[j] < bestWeight)
    && bestWeight >= 0
    && (bestWeight == 0 ==> best == 0)
  }

  /** The choice and its weight after scanning the first n entries. */
  function Scan(r: seq<int>, n: nat): (res: (nat, int))
    requires r != [] && n <= |r|
    ensures IsBest(r, n, res.0, res.1)
  {
    if n == 0 then (0, 0)
    else
      var (best, bestWeight) := Scan(r, n - 1);
      if r[n - 1] > bestWeight then (n - 1, r[n - 1]) else (best, bestWeight)
  }

  function Best(r: seq<int>): (best: nat)
    requires r != []
    ensures best < |r|
  {
    Scan(r, |r|).0
  }

  lemma BestUnique(r: seq<int>, a: nat, aw: int, b: nat, bw: int)
    requires IsBest(r, |r|, a, aw) && IsBest(r, |r|, b, bw)
    ensures a == b && aw == bw
  {
    if aw > 0 {
      assert r[a] <= bw;
    }
    if bw > 0 {
      assert r[b] <= aw;
    }
  }

  /** The zero start of the scan never overrides a maximum as long as one raised
      weight is positive; otherwise the first candidate is taken whatever it holds. */
  lemma ChoiceIsMaximumIff(r: seq<int>)
    requires r != []
    ensures (forall j :: 0 <= j < |r| ==> r[j] <= r[Best(r)]) <==>
            (exists j :: 0 <= j < |r| && r[j] > 0) || (forall j :: 0 <= j < |r| ==> r[j] <= r[0])
  {
    if j :| 0 <= j < |r| && r[j] > 0 {
      assert r[j] <= Scan(r, |r|).1;
    }
  }

  function StepVector(v: seq<int>, ws: seq<int>): (v': seq<int>)
    requires |v| == |ws| && v != []
    ensures |v'| == |v|
  {
    var r := Raise(v, ws);
    r[Best(r) := r[Best(r)] - Sum(ws)]
  }

  /** The entries of accounts that are still candidates. */
  function Kept(state: Running, cs: seq<Account>): Running {
    map id | id in state && id in Ids(cs) :: state[id]
  }

  /** The weights of the first n candidates added one after the other, with the first
      largest positive running weight met on the way. */
  function Raised(state: Running, cs: seq<Account>, n: nat): (res: (Running, nat, int))
    requires cs != [] && n <= |cs|
    ensures res.1 < |cs|
  {
    if n == 0 then (state, 0, 0)
    else
      var (before, best, bestWeight) := Raised(state, cs, n - 1);
      var id := cs[n - 1].id;
      var w := At(before, id) + Weight(cs[n - 1]);
      if w > bestWeight then (before[id := w], n - 1, w) else (before[id := w], best, bestWeight)
  }

  /** One step on a route's running weights: the picked position and the new weights. */
  function Step(state: Running, cs: seq<Account>): (res: (nat, Running))
    requires cs != []
    ensures res.0 < |cs|
  {
    var (raised, best, _) := Raised(Kept(state, cs), cs, |cs|);
    var id := cs[best].id;
    (best, raised[id := At(raised, id) - Sum(Weights(cs))])
  }

  lemma {:induction false} RaisedKeys(state: Running, cs: seq<Account>, n: nat)
    requires cs != [] && n <= |cs|
    ensures Raised(state, cs, n).0.Keys == state.Keys + Ids(cs[..n])
  {
    if n > 0 {
      RaisedKeys(state, cs, n - 1);
      assert cs[..n] == cs[..n - 1] + [cs[n - 1]];
    }
  }

  /** One iteration of the scan. */
  lemma ScanStep(r: seq<int>, n: nat)
    requires r != [] && n <= |r|
    ensures Scan(r, n) == if n == 0 then (0, 0)
                          else if r[n - 1] > Scan(r, n - 1).1 then (n - 1, r[n - 1]) else Scan(r, n - 1)
  {
  }

  /** One iteration of the addition. */
  lemma RaisedStep(state: Running, cs: seq<Account>, n: nat)
    requires cs != [] && n <= |cs|
    ensures Raised(state, cs, n) ==
            if n == 0 then (state, 0, 0)
            else
              var (before, best, bestWeight) := Raised(state, cs, n - 1);
              var w := At(before, cs[n - 1].id) + Weight(cs[n - 1]);
              if w > bestWeight then (before[cs[n - 1].id := w], n - 1, w)
              else (before[cs[n - 1].id := w], best, bestWeight)
  {
  }

  lemma AtUpdate(state: Running, id: string, x: int, other: string)
    ensures At(state[id := x], other) == if other == id then x else At(state, other)
  {
  }

  lemma OthersDiffer(cs: seq<Account>, i: nat, j: nat)
    requires DistinctIds(cs) && i < |cs| && j < |cs|
    ensures i != j ==> cs[i].id != cs[j].id
  {
  }

  /** On distinct IDs the additions do not meet, and the choice is the scan's. */
  lemma {:induction false} RaisedIsRaise(state: Running, cs: seq<Account>, n: nat)
    requires cs != [] && DistinctIds(cs) && n <= |cs|
    ensures var r := Raise(Vector(state, cs), Weights(cs));
            var (raised, best, bestWeight) := Raised(state, cs, n);
            && (best, bestWeight) == Scan(r, n)
            && forall j :: 0 <= j < |cs| ==> At(raised, cs[j].id) == if j < n then r[j] else At(state, cs[j].id)
  {
    hide Raised, Scan, IsBest, DistinctIds, At, Weight;
    var r := Raise(Vector(state, cs), Weights(cs));
    ScanStep(r, n);
    RaisedStep(state, cs, n);
    if n > 0 {
      RaisedIsRaise(state, cs, n - 1);
      var (before, _, _) := Raised(state, cs, n - 1);
      var (raised, _, _) := Raised(state, cs, n);
      assert raised == before[cs[n - 1].id := r[n - 1]];
      forall j | 0 <= j < |cs|
        ensures At(raised, cs[j].id) == if j < n then r[j] else At(state, cs[j].id)
      {
        OthersDiffer(cs, n - 1, j);
        AtUpdate(before, cs[n - 1].id, r[n - 1], cs[j].id);
      }
    }
  }

  lemma StepKeys(state: Running, cs: seq<Account>)
    requires cs != []
    ensures Step(state, cs).1.Keys == Ids(cs)
  {
    hide Raised, Sum;
    RaisedKeys(Kept(state, cs), cs, |cs|);
    assert cs[..|cs|] == cs;
    CandidateIds(cs);
  }

  /** A step leaves entries for the candidates and for nobody else; on distinct IDs it
      is the vector step. */
  lemma StepIsVectorStep(state: Running, cs: seq<Account>)
    requires cs != []
    ensures Step(state, cs).1.Keys == Ids(cs)
    ensures DistinctIds(cs) ==>
            && Step(state, cs).0 == Best(Raise(Vector(state, cs), Weights(cs)))
            && Vector(Step(state, cs).1, cs) == StepVector(Vector(state, cs), Weights(cs))
  {
    hide Raised, Sum, Scan, IsBest;
    StepKeys(state, cs);
    if DistinctIds(cs) {
      CandidateIds(cs);
      hide Ids;
      assert Vector(Kept(state, cs), cs) == Vector(state, cs);
      RaisedIsRaise(Kept(state, cs), cs, |cs|);
      var (raised, best, _) := Raised(Kept(state, cs), cs, |cs|);
      forall j | 0 <= j < |cs|
        ensures At(Step(state, cs).1, cs[j].id) == StepVector(Vector(state, cs), Weights(cs))[j]
      {
        assert j != best ==> cs[j].id != cs[best].id;
      }
    }
  }

  // ---- Runs over a fixed candidate set, from an absent running-weight entry ----

  lemma {:induction false} SumRaise(v: seq<int>, ws: seq<int>, n: nat)
    requires n <= |v| == |ws|
    ensures SumTo(Raise(v, ws), n) == SumTo(v, n) + SumTo(ws, n)
  {
    if n > 0 {
      SumRaise(v, ws, n - 1);
    }
  }

  lemma {:induction false} SumZeros(v: seq<int>, n: nat)
    requires n <= |v| && forall i :: 0 <= i < n ==> v[i] == 0
    ensures SumTo(v, n) == 0
  {
    if n > 0 {
      SumZeros(v, n - 1);
    }
  }

  lemma {:induction false} PositiveEntry(r: seq<int>, n: nat)
    requires n <= |r| && SumTo(r, n) > 0
    ensures exists j :: 0 <= j < n && r[j] > 0
  {
    if r[n - 1] <= 0 {
      PositiveEntry(r, n - 1);
    }
  }

  lemma {:induction false} SumOfPositives(ws: seq<int>, n: nat)
    requires n <= |ws| && forall i :: 0 <= i < n ==> ws[i] >= 1
    ensures SumTo(ws, n) >= n
  {
    if n > 0 {
      SumOfPositives(ws, n - 1);
    }
  }

  ghost predicate Positive(ws: seq<int>) {
    ws != [] && forall i :: 0 <= i < |ws| ==> ws[i] >= 1
  }

  /** After k calls that picked position i ps[i] times: the weights sum to zero,
      each is above -total, and each is what the account earned minus what it paid. */
  ghost predicate Balanced(v: seq<int>, ws: seq<int>, k: nat, ps: seq<int>) {
    && |v| == |ws| == |ps|
    && Sum(v) == 0
    && Sum(ps) == k
    && forall i :: 0 <= i < |v| ==> v[i] > -Sum(ws) && v[i] == k * ws[i] - Sum(ws) * ps[i]
  }

  /** Under balance the scan's zero start never decides: the pick is the first true maximum. */
  lemma BalancedChoice(v: seq<int>, ws: seq<int>, k: nat, ps: seq<int>)
    requires Positive(ws) && Balanced(v, ws, k, ps)
    ensures var r := Raise(v, ws);
            && r[Best(r)] > 0
            && forall j :: 0 <= j < |r| ==> r[j] <= r[Best(r)] && (j < Best(r) ==> r[j] < r[Best(r)])
  {
    var r := Raise(v, ws);
    SumRaise(v, ws, |v|);
    SumOfPositives(ws, |ws|);
    PositiveEntry(r, |r|);
    var j :| 0 <= j < |r| && r[j] > 0;
    assert r[j] <= Scan(r, |r|).1;
  }

  lemma OneMore(a: int, b: int)
    ensures (a + 1) * b == a * b + b
  {
  }

  lemma StepKeepsBalance(v: seq<int>, ws: seq<int>, k: nat, ps: seq<int>)
    requires Positive(ws) && Balanced(v, ws, k, ps)
    ensures var b := Best(Raise(v, ws)); Balanced(StepVector(v, ws), ws, k + 1, ps[b := ps[b] + 1])
  {
    hide Scan, SumTo;
    var r, total := Raise(v, ws), Sum(ws);
    var b := Best(r);
    BalancedChoice(v, ws, k, ps);
    SumRaise(v, ws, |v|);
    SumToUpdate(r, b, r[b] - total, |r|);
    SumToUpdate(ps, b, ps[b] + 1, |ps|);
    var v', ps' := StepVector(v, ws), ps[b := ps[b] + 1];
    forall i | 0 <= i < |v|
      ensures v'[i] > -total && v'[i] == (k + 1) * ws[i] - total * ps'[i]
    {
      assert v[i] == k * ws[i] - total * ps[i];
      OneMore(k, ws[i]);
      OneMore(ps[i], total);
    }
  }

  /** The weights after k calls and how often each position was picked in them. */
  ghost function Run(ws: seq<int>, k: nat): (vp: (seq<int>, seq<int>))
    requires Positive(ws)
    ensures |vp.0| == |vp.1| == |ws|
  {
    if k == 0 then (seq(|ws|, _ => 0), seq(|ws|, _ => 0))
    else
      var (v, ps) := Run(ws, k - 1);
      var b := Best(Raise(v, ws));
      (StepVector(v, ws), ps[b := ps[b] + 1])
  }

  lemma {:induction false} RunBalanced(ws: seq<int>, k: nat)
    requires Positive(ws)
    ensures Balanced(Run(ws, k).0, ws, k, Run(ws, k).1)
  {
    hide Scan, SumTo, Best, StepVector;
    if k == 0 {
      SumZeros(Run(ws, 0).0, |ws|);
      SumOfPositives(ws, |ws|);
    } else {
      RunBalanced(ws, k - 1);
      StepKeepsBalance(Run(ws, k - 1).0, ws, k - 1, Run(ws, k - 1).1);
    }
  }

  lemma MulMonotone(a: nat, b: int, c: int)
    requires b <= c
    ensures a * b <= a * c
  {
  }

  /** After total balanced calls each position was picked exactly its weight
      times and every weight is back to zero. */
  lemma BalancedRound(v: seq<int>, ws: seq<int>, ps: seq<int>)
    requires Positive(ws) && Sum(ws) >= 0 && Balanced(v, ws, Sum(ws), ps)
    ensures ps == ws
    ensures forall i :: 0 <= i < |v| ==> v[i] == 0
  {
    var total: nat := Sum(ws);
    forall i | 0 <= i < |ws|
      ensures ps[i] <= ws[i]
    {
      if ps[i] >= ws[i] + 1 {
        MulMonotone(total, ws[i] + 1, ps[i]);
      }
    }
    SumBoundTight(ps, ws, |ws|);
  }

  lemma {:induction false} Periodic(ws: seq<int>, k: nat)
    requires Positive(ws)
    ensures Sum(ws) > 0
    ensures Run(ws, Sum(ws) + k).0 == Run(ws, k).0
  {
    hide StepVector, Best, SumTo;
    SumOfPositives(ws, |ws|);
    var total: nat := Sum(ws);
    if k == 0 {
      assert Run(ws, total).0 == Run(ws, 0).0 by {
        RunBalanced(ws, total);
        BalancedRound(Run(ws, total).0, ws, Run(ws, total).1);
      }
    } else {
      Periodic(ws, k - 1);
    }
  }

  lemma MulCancel(a: nat, b: int, c: int)
    requires a > 0 && a * b == a * c
    ensures b == c
  {
    if b < c {
      MulMonotone(a, b + 1, c);
    } else if c < b {
      MulMonotone(a, c + 1, b);
    }
  }

  // ---- The same run on the router's maps ----

  /** The running weights after k calls of the step on an absent entry. */
  ghost function After(cs: seq<Account>, k: nat): Running
    requires cs != []
  {
    if k == 0 then map[] else Step(After(cs, k - 1), cs).1
  }

  /** The position picked by each of the first k calls. */
  ghost function Picked(cs: seq<Account>, k: nat): (ps: seq<nat>)
    requires cs != []
    ensures |ps| == k && forall p :: p in ps ==> p < |cs|
  {
    if k == 0 then [] else Picked(cs, k - 1) + [Step(After(cs, k - 1), cs).0]
  }

  ghost function Occurrences(s: seq<nat>, i: nat): nat {
    multiset(s)[i]
  }

  lemma WeightsPositive(cs: seq<Account>)
    requires cs != []
    ensures Positive(Weights(cs))
  {
  }

  /** A run on the maps is the run on the vectors, and its picks are counted right. */
  lemma {:induction false} MapRunIsVectorRun(cs: seq<Account>, k: nat)
    requires cs != [] && DistinctIds(cs)
    ensures Positive(Weights(cs))
    ensures Vector(After(cs, k), cs) == Run(Weights(cs), k).0
    ensures forall i :: 0 <= i < |cs| ==> Occurrences(Picked(cs, k), i) == Run(Weights(cs), k).1[i]
  {
    hide StepVector, Best, SumTo, Step;
    WeightsPositive(cs);
    if k > 0 {
      MapRunIsVectorRun(cs, k - 1);
      StepIsVectorStep(After(cs, k - 1), cs);
    }
  }

  /** Prefix fairness: after k calls the running weights sum to zero, each is above
      -total and is exactly what its account earned minus what it paid; so no account
      is ever ahead of its share by a whole turn, nor behind it by as many turns as
      there are other accounts. */
  lemma PrefixFairness(cs: seq<Account>, k: nat)
    requires cs != [] && DistinctIds(cs)
    ensures var v, total := Vector(After(cs, k), cs), Sum(Weights(cs));
            && Sum(v) == 0
            && forall i :: 0 <= i < |cs| ==>
                 var picks := Occurrences(Picked(cs, k), i);
                 && v[i] > -total
                 && v[i] == k * Weight(cs[i]) - total * picks
                 && total * picks < k * Weight(cs[i]) + total
                 && total * picks >= k * Weight(cs[i]) - (|cs| - 1) * (total - 1)
  {
    hide After, Picked, Run, SumTo;
    MapRunIsVectorRun(cs, k);
    RunBalanced(Weights(cs), k);
    UpperBalance(Run(Weights(cs), k).0, Weights(cs), k, Run(Weights(cs), k).1);
  }

  lemma UpperBalance(v: seq<int>, ws: seq<int>, k: nat, ps: seq<int>)
    requires Balanced(v, ws, k, ps)
    ensures forall i :: 0 <= i < |v| ==> v[i] <= (|v| - 1) * (Sum(ws) - 1)
  {
    hide SumTo;
    var total := Sum(ws);
    forall i | 0 <= i < |v|
      ensures v[i] <= (|v| - 1) * (total - 1)
    {
      OthersAtLeast(v, i, 1 - total, |v|);
      NegatedProduct(|v| - 1, total - 1);
    }
  }

  lemma NegatedProduct(a: int, b: int)
    ensures a * -b == -(a * b)
  {
  }

  /** An entry and the least the others can be. */
  lemma {:induction false} OthersAtLeast(v: seq<int>, i: nat, low: int, n: nat)
    requires n <= |v| && forall j :: 0 <= j < n ==> v[j] >= low
    ensures if i < n then v[i] + (n - 1) * low <= SumTo(v, n) else n * low <= SumTo(v, n)
  {
    if n > 0 {
      OthersAtLeast(v, i, low, n - 1);
      assert n * low == (n - 1) * low + low;
      assert n > 1 ==> (n - 1) * low == (n - 2) * low + low;
    }
  }

  /** In every run call k picks the first true maximum of the raised weights. */
  lemma PickIsFirstMaximum(cs: seq<Account>, k: nat)
    requires cs != [] && DistinctIds(cs)
    ensures var r, c := Raise(Vector(After(cs, k), cs), Weights(cs)), Picked(cs, k + 1)[k];
            r[c] > 0 && forall j :: 0 <= j < |r| ==> r[j] <= r[c] && (j < c ==> r[j] < r[c])
  {
    hide Step, Raised, Scan, IsBest, Run;
    MapRunIsVectorRun(cs, k);
    RunBalanced(Weights(cs), k);
    StepIsVectorStep(After(cs, k), cs);
    var (v, ps) := Run(Weights(cs), k);
    BalancedChoice(v, Weights(cs), k, ps);
  }

  lemma {:induction false} PickedPrefix(cs: seq<Account>, k: nat, n: nat)
    requires cs != [] && k <= n
    ensures Picked(cs, n)[..k] == Picked(cs, k)
  {
    hide Step;
    if k < n {
      PickedPrefix(cs, k, n - 1);
      assert Picked(cs, n)[..k] == Picked(cs, n - 1)[..k];
    }
  }

  /** Exact weighted fairness: every window of total consecutive calls picks each
      account exactly its weight times. */
  lemma ExactFairness(cs: seq<Account>, start: nat, i: nat)
    requires cs != [] && DistinctIds(cs) && i < |cs|
    ensures Sum(Weights(cs)) > 0
    ensures Occurrences(Picked(cs, start + Sum(Weights(cs)))[start..], i) == Weight(cs[i])
  {
    hide Run, Picked, After, SumTo, Vector;
    WeightsPositive(cs);
    var ws := Weights(cs);
    Periodic(ws, start);
    var total: nat := Sum(ws);
    var all := Picked(cs, start + total);
    PickedPrefix(cs, start, start + total);
    assert all == all[..start] + all[start..];
    var p, q, w := Occurrences(all[..start], i), Occurrences(all[start..], i), ws[i];
    assert (start + total) * w - total * (p + q) == start * w - total * p by {
      PrefixFairness(cs, start);
      PrefixFairness(cs, start + total);
      MapRunIsVectorRun(cs, start);
      MapRunIsVectorRun(cs, start + total);
    }
    EqualDebtEqualShare(start, total, w, p, q);
  }

  /** Who owes the same after total more calls was picked w times in them. */
  lemma EqualDebtEqualShare(start: int, total: nat, w: int, p: int, q: int)
    requires total > 0 && (start + total) * w - total * (p + q) == start * w - total * p
    ensures q == w
  {
    assert (start + total) * w == start * w + total * w;
    assert total * (p + q) == total * p + total * q;
    MulCancel(total, q, w);
  }

  lemma {:induction false} RunReturnsToZero(ws: seq<int>, rounds: nat)
    requires Positive(ws)
    ensures Sum(ws) > 0
    ensures forall i :: 0 <= i < |ws| ==> Run(ws, rounds * Sum(ws)).0[i] == 0
  {
    hide StepVector, Best, SumTo;
    Periodic(ws, 0);
    if rounds > 0 {
      RunReturnsToZero(ws, rounds - 1);
      var total: nat := Sum(ws);
      assert rounds * total == total + (rounds - 1) * total;
      Periodic(ws, (rounds - 1) * total);
    }
  }

  /** Every total calls all the running weights are zero again. */
  lemma RoundsReturnToZero(cs: seq<Account>, rounds: nat)
    requires cs != [] && DistinctIds(cs)
    ensures Sum(Weights(cs)) > 0
    ensures forall i :: 0 <= i < |cs| ==> Vector(After(cs, rounds * Sum(Weights(cs))), cs)[i] == 0
  {
    hide Run, After, SumTo;
    WeightsPositive(cs);
    RunReturnsToZero(Weights(cs), rounds);
    MapRunIsVectorRun(cs, rounds * Sum(Weights(cs)));
  }

  // ---- Runs in which the candidate set changes ----

  ghost predicate ValidSet(cs: seq<Account>) {
    cs != [] && DistinctIds(cs)
  }

  ghost function AfterChurn(start: Running, sets: seq<seq<Account>>): Running
    requires forall k :: 0 <= k < |sets| ==> ValidSet(sets[k])
  {
    if |sets| == 0 then start
    else
      assert ValidSet(sets[|sets| - 1]);
      Step(AfterChurn(start, sets[..|sets| - 1]), sets[|sets| - 1]).1
  }

  function Position(cs: seq<Account>, id: string): (i: nat)
    requires id in Ids(cs)
    ensures i < |cs| && cs[i].id == id
  {
    if cs[0].id == id then 0 else 1 + Position(cs[1..], id)
  }

  /** What an account earned and paid over a run: its weight at every call, minus
      the call's total whenever it was the one picked. */
  ghost function Ledger(start: Running, sets: seq<seq<Account>>, id: string): int
    requires forall k :: 0 <= k < |sets| ==> ValidSet(sets[k]) && id in Ids(sets[k])
  {
    if sets == [] then At(start, id)
    else
      var before, cs := sets[..|sets| - 1], sets[|sets| - 1];
      var i := Position(cs, id);
      var paid := if Step(AfterChurn(start, before), cs).0 == i then Sum(Weights(cs)) else 0;
      Ledger(start, before, id) + Weight(cs[i]) - paid
  }

  /** One account's share of one step: it earns its weight and pays the total if picked. */
  lemma StepEarnsAndPays(state: Running, cs: seq<Account>, i: nat)
    requires ValidSet(cs) && i < |cs|
    ensures At(Step(state, cs).1, cs[i].id) ==
            At(state, cs[i].id) + Weight(cs[i]) - if Step(state, cs).0 == i then Sum(Weights(cs)) else 0
  {
    hide Scan, SumTo;
    StepIsVectorStep(state, cs);
    assert Vector(Step(state, cs).1, cs)[i] == At(Step(state, cs).1, cs[i].id);
  }

  /** However the other candidates come and go, an account that stays keeps an
      exact ledger. */
  lemma {:induction false} LedgerSurvivesChurn(start: Running, sets: seq<seq<Account>>, id: string)
    requires forall k :: 0 <= k < |sets| ==> ValidSet(sets[k]) && id in Ids(sets[k])
    ensures At(AfterChurn(start, sets), id) == Ledger(start, sets, id)
  {
    hide Step;
    if sets != [] {
      var before, cs := sets[..|sets| - 1], sets[|sets| - 1];
      assert ValidSet(cs);
      LedgerSurvivesChurn(start, before, id);
      StepEarnsAndPays(AfterChurn(start, before), cs, Position(cs, id));
    }
  }

  /** An account that left comes back with nothing: its entry was dropped. */
  lemma LeaverIsForgotten(state: Running, cs: seq<Account>, id: string)
    requires cs != [] && id !in Ids(cs)
    ensures At(Step(state, cs).1, id) == 0
  {
    StepIsVectorStep(state, cs);
  }

  // ---- No starvation while the candidate set changes ----

  function Gain(x: int): nat {
    if x > 0 then x else 0
  }

  /** The sum of the positive running weights. */
  ghost function Credit(state: Running): nat
    decreases |state|
  {
    if state == map[] then 0
    else
      var id :| id in state;
      SmallerWithout(state, id);
      Gain(state[id]) + Credit(state - {id})
  }

  lemma SmallerWithout(state: Running, id: string)
    requires id in state
    ensures |state - {id}| < |state|
  {
    assert state.Keys == (state - {id}).Keys + {id};
    assert |state| == |state.Keys| && |state - {id}| == |(state - {id}).Keys|;
  }

  /** The sum does not depend on the order in which entries are taken. */
  lemma {:induction false} CreditRemove(state: Running, id: string)
    ensures Credit(state) == Gain(At(state, id)) + Credit(state - {id})
    decreases |state|
  {
    if id !in state {
      assert state - {id} == state;
    } else {
      var first :| first in state && Credit(state) == Gain(state[first]) + Credit(state - {first});
      if first != id {
        SmallerWithout(state, first);
        CreditRemove(state - {first}, id);
        SmallerWithout(state, id);
        CreditRemove(state - {id}, first);
        assert state - {first} - {id} == state - {id} - {first};
      }
    }
  }

  function VectorCredit(v: seq<int>, n: nat): nat
    requires n <= |v|
  {
    if n == 0 then 0 else VectorCredit(v, n - 1) + Gain(v[n - 1])
  }

  lemma {:induction false} VectorCreditSame(v: seq<int>, u: seq<int>, n: nat)
    requires n <= |v| && n <= |u| && forall i :: 0 <= i < n ==> v[i] == u[i]
    ensures VectorCredit(v, n) == VectorCredit(u, n)
  {
    if n > 0 {
      VectorCreditSame(v, u, n - 1);
    }
  }

  lemma {:induction false} VectorCreditWithin(state: Running, cs: seq<Account>, n: nat)
    requires DistinctIds(cs) && n <= |cs|
    ensures VectorCredit(Vector(state, cs), n) <= Credit(state)
    ensures state.Keys <= Ids(cs[..n]) ==> VectorCredit(Vector(state, cs), n) == Credit(state)
  {
    if n == 0 {
      assert state.Keys <= Ids(cs[..0]) ==> state == map[];
    } else {
      var id := cs[n - 1].id;
      var rest := state - {id};
      CreditRemove(state, id);
      VectorCreditWithin(rest, cs, n - 1);
      VectorCreditSame(Vector(rest, cs), Vector(state, cs), n - 1);
      assert cs[..n] == cs[..n - 1] + [cs[n - 1]];
    }
  }

  lemma {:induction false} RaiseCredit(v: seq<int>, ws: seq<int>, n: nat)
    requires n <= |v| == |ws| && forall i :: 0 <= i < n ==> ws[i] >= 0
    ensures VectorCredit(Raise(v, ws), n) <= VectorCredit(v, n) + SumTo(ws, n)
  {
    if n > 0 {
      RaiseCredit(v, ws, n - 1);
    }
  }

  lemma {:induction false} UpdateCredit(v: seq<int>, i: nat, x: int, n: nat)
    requires i < |v| && n <= |v|
    ensures VectorCredit(v[i := x], n) == VectorCredit(v, n) + if i < n then Gain(x) - Gain(v[i]) else 0
  {
    if n > 0 {
      UpdateCredit(v, i, x, n - 1);
    }
  }

  lemma {:induction false} CreditAtMost(v: seq<int>, top: nat, n: nat)
    requires n <= |v| && forall i :: 0 <= i < n ==> v[i] <= top
    ensures VectorCredit(v, n) <= n * top
  {
    if n > 0 {
      CreditAtMost(v, top, n - 1);
      assert n * top == (n - 1) * top + top;
    }
  }

  /** A step never drives the credit above what it was, unless it stays within one
      round's total for each candidate. */
  lemma StepCredit(state: Running, cs: seq<Account>)
    requires ValidSet(cs)
    ensures Credit(Step(state, cs).1) <= Credit(state) || Credit(Step(state, cs).1) <= |cs| * Sum(Weights(cs))
  {
    hide Step, SumTo, Credit;
    StepIsVectorStep(state, cs);
    var n, v, ws := |cs|, Vector(state, cs), Weights(cs);
    var r, total := Raise(v, ws), Sum(ws);
    var b := Best(r);
    var v' := StepVector(v, ws);
    SumOfPositives(ws, n);
    assert cs[..n] == cs;
    VectorCreditWithin(state, cs, n);
    VectorCreditWithin(Step(state, cs).1, cs, n);
    if r[b] >= total {
      RaiseCredit(v, ws, n);
      UpdateCredit(r, b, r[b] - total, n);
    } else {
      forall i | 0 <= i < n
        ensures v'[i] <= total
      {
        assert r[i] <= Scan(r, n).1;
      }
      CreditAtMost(v', total, n);
    }
  }

  lemma {:induction false} CreditBounded(start: Running, sets: seq<seq<Account>>, bound: nat)
    requires Credit(start) <= bound
    requires forall k :: 0 <= k < |sets| ==> ValidSet(sets[k]) && |sets[k]| * Sum(Weights(sets[k])) <= bound
    ensures Credit(AfterChurn(start, sets)) <= bound
  {
    hide Step;
    if sets != [] {
      var before, cs := sets[..|sets| - 1], sets[|sets| - 1];
      assert ValidSet(cs);
      CreditBounded(start, before, bound);
      StepCredit(AfterChurn(start, before), cs);
    }
  }

  /** Call k of the run picks the account. */
  ghost predicate PicksAt(start: Running, sets: seq<seq<Account>>, id: string, k: nat)
    requires k < |sets| && forall j :: 0 <= j < |sets| ==> ValidSet(sets[j])
  {
    assert ValidSet(sets[k]);
    sets[k][Step(AfterChurn(start, sets[..k]), sets[k]).0].id == id
  }

  lemma {:induction false} UnpickedEarns(start: Running, sets: seq<seq<Account>>, id: string, w: nat)
    requires forall k :: 0 <= k < |sets| ==> ValidSet(sets[k]) && id in Ids(sets[k])
    requires forall k :: 0 <= k < |sets| ==> Weight(sets[k][Position(sets[k], id)]) >= w
    requires forall k :: 0 <= k < |sets| ==> !PicksAt(start, sets, id, k)
    ensures At(AfterChurn(start, sets), id) >= At(start, id) + |sets| * w
  {
    hide Step, Weight, Position, DistinctIds, Ids, SumTo;
    if sets != [] {
      var n := |sets| - 1;
      var before, cs := sets[..n], sets[n];
      assert ValidSet(cs) && Weight(cs[Position(cs, id)]) >= w;
      forall k | 0 <= k < n
        ensures !PicksAt(start, before, id, k)
      {
        assert before[..k] == sets[..k] && !PicksAt(start, sets, id, k);
      }
      UnpickedEarns(start, before, id, w);
      assert !PicksAt(start, sets, id, n);
      var i := Position(cs, id);
      assert Step(AfterChurn(start, before), cs).0 != i;
      StepEarnsAndPays(AfterChurn(start, before), cs, i);
      assert |sets| * w == n * w + w;
    }
  }

  /** No starvation of weighted calls: an account offered at every call is picked
      before its weights could add up to more than the bound on the credit, however
      the other candidates and all weights change and whatever the state was. */
  lemma WeightedNeverStarves(start: Running, sets: seq<seq<Account>>, id: string, w: nat, bound: nat)
    requires forall k :: 0 <= k < |sets| ==> ValidSet(sets[k]) && id in Ids(sets[k])
    requires forall k :: 0 <= k < |sets| ==> Weight(sets[k][Position(sets[k], id)]) >= w
    requires forall k :: 0 <= k < |sets| ==> |sets[k]| * Sum(Weights(sets[k])) <= bound
    requires Credit(start) <= bound && |sets| * w > bound - At(start, id)
    ensures exists k :: 0 <= k < |sets| && PicksAt(start, sets, id, k)
  {
    hide Step, Credit;
    if forall k :: 0 <= k < |sets| ==> !PicksAt(start, sets, id, k) {
      UnpickedEarns(start, sets, id, w);
      CreditBounded(start, sets, bound);
      CreditRemove(AfterChurn(start, sets), id);
      assert false;
    }
  }

  lemma SumDisplay(ws: seq<int>)
    requires ws == [1, 2, 1, 1, 1]
    ensures Sum(ws) == 6
  {
    assert SumTo(ws, 1) == 1 && SumTo(ws, 2) == 3 && SumTo(ws, 3) == 4 && SumTo(ws, 4) == 5;
  }

  lemma ScanDisplay(r: seq<int>, best: nat)
    requires best < |r| && r[best] > 0
    requires forall j :: 0 <= j < |r| ==> r[j] <= r[best] && (j < best ==> r[j] < r[best])
    ensures Best(r) == best
  {
    assert r[best] <= Scan(r, |r|).1;
  }

  /** After a departure every raised weight can be non-positive, and then the scan
      takes the first candidate although another one holds more: two calls over
      five accounts of weights 1, 2, 1, 1, 1, after which only the first two stay. */
  lemma ZeroStartCanDecide()
    ensures var v := StepVector(StepVector([0, 0, 0, 0, 0], [1, 2, 1, 1, 1]), [1, 2, 1, 1, 1]);
            var r := Raise(v[..2], [1, 2]);
            Best(r) == 0 && r[0] < r[1]
  {
    var ws := [1, 2, 1, 1, 1];
    SumDisplay(ws);
    var zeros := [0, 0, 0, 0, 0];
    ScanDisplay(Raise(zeros, ws), 1);
    var v1 := StepVector(zeros, ws);
    assert v1 == [1, -4, 1, 1, 1];
    ScanDisplay(Raise(v1, ws), 0);
    var v2 := StepVector(v1, ws);
    assert v2 == [-4, -2, 2, 2, 2];
    var r := Raise(v2[..2], [1, 2]);
    assert r == [-3, 0];
    assert Scan(r, 1) == (0, 0);
  }
}
