/** The plain ID cursor: rotation over whatever candidates are offered, resuming
    after the last picked ID. */
module CursorRotation {
  import opened Common
  import opened Accounts

  /** Go's string order: lexicographic, a proper prefix first. */
  predicate Less(a: string, b: string) {
    b != [] && (a == [] || a[0] < b[0] || (a[0] == b[0] && Less(a[1..], b[1..])))
  }

  lemma {:induction false} LessTransitive(a: string, b: string, c: string)
    requires Less(a, b) && Less(b, c)
    ensures Less(a, c)
  {
    if a != [] && a[0] == b[0] == c[0] {
      LessTransitive(a[1..], b[1..], c[1..]);
    }
  }

  lemma {:induction false} LessTotal(a: string, b: string)
    ensures a == b || Less(a, b) || Less(b, a)
    ensures !(Less(a, b) && Less(b, a)) && !Less(a, a)
  {
    if a != [] && b != [] && a[0] == b[0] {
      LessTotal(a[1..], b[1..]);
      assert a == [a[0]] + a[1..] && b == [b[0]] + b[1..];
    }
    LessIrreflexive(a);
  }

  lemma {:induction false} LessIrreflexive(a: string)
    ensures !Less(a, a)
  {
    if a != [] {
      LessIrreflexive(a[1..]);
    }
  }

  /** The ID the cursor moves to: the least one above the last pick, or the least
      of all when none is above it or nothing was picked yet. */
  ghost predicate IsNext(ids: set<string>, last: string, next: string) {
    && next in ids
    && if last != "" && exists x :: x in ids && Less(last, x)
       then Less(last, next) && forall x :: x in ids && Less(last, x) ==> x == next || Less(next, x)
       else forall x :: x in ids ==> x == next || Less(next, x)
  }

  lemma NextUnique(ids: set<string>, last: string, a: string, b: string)
    requires IsNext(ids, last, a) && IsNext(ids, last, b)
    ensures a == b
  {
    LessTotal(a, b);
  }

  // ---- sort.Slice by ID and the index scan ----

  function InsertById(acc: Account, sorted: seq<Account>): seq<Account> {
    if sorted == [] || Less(acc.id, sorted[0].id) then [acc] + sorted
    else [sorted[0]] + InsertById(acc, sorted[1..])
  }

  /** The candidates in ID order. */
  function SortById(cs: seq<Account>): seq<Account> {
    if cs == [] then [] else InsertById(cs[0], SortById(cs[1..]))
  }

  ghost predicate SortedById(cs: seq<Account>) {
    forall i, j :: 0 <= i < j < |cs| ==> !Less(cs[j].id, cs[i].id)
  }

  lemma {:induction false} InsertByIdInserts(acc: Account, sorted: seq<Account>)
    ensures multiset(InsertById(acc, sorted)) == multiset(sorted) + multiset{acc}
    ensures forall x :: x in InsertById(acc, sorted) <==> x == acc || x in sorted
  {
    if sorted != [] && !Less(acc.id, sorted[0].id) {
      InsertByIdInserts(acc, sorted[1..]);
    }
    assert sorted != [] ==> sorted == [sorted[0]] + sorted[1..];
    forall x
      ensures x in InsertById(acc, sorted) <==> x == acc || x in sorted
    {
      assert x in InsertById(acc, sorted) <==> x in multiset(InsertById(acc, sorted));
      assert x in sorted <==> x in multiset(sorted);
    }
  }

  lemma PrependSorted(first: Account, rest: seq<Account>)
    requires SortedById(rest) && forall x :: x in rest ==> !Less(x.id, first.id)
    ensures SortedById([first] + rest)
  {
  }

  lemma {:induction false} InsertByIdSorts(acc: Account, sorted: seq<Account>)
    requires SortedById(sorted)
    ensures SortedById(InsertById(acc, sorted))
  {
    InsertByIdInserts(acc, sorted);
    if sorted == [] {
    } else if Less(acc.id, sorted[0].id) {
      forall x | x in sorted
        ensures !Less(x.id, acc.id)
      {
        var j :| 0 <= j < |sorted| && sorted[j] == x;
        LessTotal(sorted[0].id, sorted[0].id);
        if Less(x.id, acc.id) {
          LessTransitive(x.id, acc.id, sorted[0].id);
        }
      }
      PrependSorted(acc, sorted);
    } else {
      InsertByIdSorts(acc, sorted[1..]);
      InsertByIdInserts(acc, sorted[1..]);
      forall x | x in sorted[1..]
        ensures !Less(x.id, sorted[0].id)
      {
        var j :| 0 < j < |sorted| && sorted[j] == x;
      }
      PrependSorted(sorted[0], InsertById(acc, sorted[1..]));
    }
  }

  lemma {:induction false} SortByIdSorts(cs: seq<Account>)
    ensures SortedById(SortById(cs))
    ensures multiset(SortById(cs)) == multiset(cs)
    ensures |SortById(cs)| == |cs|
  {
    if cs != [] {
      SortByIdSorts(cs[1..]);
      InsertByIdSorts(cs[0], SortById(cs[1..]));
      InsertByIdInserts(cs[0], SortById(cs[1..]));
      assert cs == [cs[0]] + cs[1..];
    }
    assert |multiset(SortById(cs))| == |SortById(cs)| && |multiset(cs)| == |cs|;
  }

  /** The scan of the sorted candidates stops at the first ID above the cursor and
      falls back to the first candidate. */
  predicate IsResumeIndex(sorted: seq<Account>, last: string, idx: nat) {
    && idx < |sorted|
    && if last != "" && exists i :: 0 <= i < |sorted| && Less(last, sorted[i].id)
       then Less(last, sorted[idx].id) && forall i :: 0 <= i < idx ==> !Less(last, sorted[i].id)
       else idx == 0
  }

  lemma SortedMembers(cs: seq<Account>)
    ensures forall acc :: acc in SortById(cs) <==> acc in cs
  {
    SortByIdSorts(cs);
    forall acc
      ensures acc in SortById(cs) <==> acc in cs
    {
      assert acc in multiset(SortById(cs)) <==> acc in multiset(cs);
    }
  }

  lemma ResumeIndexIsNext(cs: seq<Account>, last: string, idx: nat)
    requires IsResumeIndex(SortById(cs), last, idx)
    ensures IsNext(Ids(cs), last, SortById(cs)[idx].id)
    ensures SortById(cs)[idx] in cs
  {
    hide SortById;
    var sorted := SortById(cs);
    SortByIdSorts(cs);
    SortedMembers(cs);
    assert sorted[idx] in sorted;
    forall x | x in Ids(cs) && (idx == 0 || Less(last, x))
      ensures x == sorted[idx].id || Less(sorted[idx].id, x) || (Less(last, sorted[idx].id) && !Less(last, x))
    {
      var acc :| acc in cs && acc.id == x;
      var i :| 0 <= i < |sorted| && sorted[i] == acc;
      LessTotal(x, sorted[idx].id);
    }
    assert (exists i :: 0 <= i < |sorted| && Less(last, sorted[i].id)) <==>
        exists x :: x in Ids(cs) && Less(last, x) by {
      forall i | 0 <= i < |sorted|
        ensures sorted[i].id in Ids(cs)
      {
        assert sorted[i] in sorted;
      }
    }
  }

  // ---- Runs ----

  /** The cursor value call k sees. */
  function CursorBefore(start: string, picks: seq<string>, k: nat): string
    requires k <= |picks|
  {
    if k == 0 then start else picks[k - 1]
  }

  ghost predicate CallFollowsCursor(sets: seq<set<string>>, start: string, picks: seq<string>, k: nat)
    requires k < |picks| == |sets|
  {
    IsNext(sets[k], CursorBefore(start, picks, k), picks[k])
  }

  /** picks[k] is the cursor's answer to the candidate IDs sets[k], starting from
      the cursor value start. */
  ghost predicate CursorRun(sets: seq<set<string>>, start: string, picks: seq<string>) {
    && |picks| == |sets|
    && forall k :: 0 <= k < |sets| ==> CallFollowsCursor(sets, start, picks, k)
  }

  lemma RunWindow(sets: seq<set<string>>, start: string, picks: seq<string>, from: nat, to: nat)
    requires CursorRun(sets, start, picks) && from <= to <= |picks|
    ensures CursorRun(sets[from..to], CursorBefore(start, picks, from), picks[from..to])
  {
    forall k | 0 <= k < to - from
      ensures CallFollowsCursor(sets[from..to], CursorBefore(start, picks, from), picks[from..to], k)
    {
      assert CallFollowsCursor(sets, start, picks, from + k);
    }
  }

  /** IDs the cursor meets when it moves from last round to goal, goal included. */
  ghost function Ahead(universe: set<string>, last: string, goal: string): set<string> {
    set u | u in universe &&
            if Less(last, goal) then Less(last, u) && !Less(goal, u)
            else Less(last, u) || !Less(goal, u)
  }

  /** A pick other than goal strictly shrinks what lies ahead of the cursor. */
  lemma PickAdvances(universe: set<string>, ids: set<string>, last: string, next: string, goal: string)
    requires ids <= universe && goal in ids && "" !in universe
    requires IsNext(ids, last, next) && next != goal
    ensures Ahead(universe, next, goal) < Ahead(universe, last, goal)
  {
    LessTotal(last, goal);
    LessTotal(next, goal);
    LessTotal(last, next);
    assert last == "" ==> Less(last, goal);
    forall u | u in Ahead(universe, next, goal)
      ensures u in Ahead(universe, last, goal)
    {
      LessTotal(last, u);
      LessTotal(next, u);
      LessTotal(goal, u);
      if Less(last, next) && Less(next, u) {
        LessTransitive(last, next, u);
      }
      if Less(goal, u) && Less(last, goal) {
        LessTransitive(last, goal, u);
      }
    }
    assert next in Ahead(universe, last, goal);
    assert next !in Ahead(universe, next, goal);
  }

  lemma {:induction false} ReachedWithin(universe: set<string>, sets: seq<set<string>>, start: string,
      picks: seq<string>, goal: string)
    requires "" !in universe && CursorRun(sets, start, picks)
    requires forall k :: 0 <= k < |sets| ==> goal in sets[k] && sets[k] <= universe
    requires |sets| >= |Ahead(universe, start, goal)| && |sets| > 0
    ensures exists k :: 0 <= k < |Ahead(universe, start, goal)| && picks[k] == goal
  {
    LessTotal(goal, goal);
    LessTotal(start, goal);
    assert goal in Ahead(universe, start, goal) by {
      assert goal in sets[0];
    }
    if picks[0] == goal {
      assert |Ahead(universe, start, goal)| > 0;
    } else {
      assert CallFollowsCursor(sets, start, picks, 0);
      RunWindow(sets, start, picks, 1, |picks|);
      assert sets[1..|sets|] == sets[1..] && picks[1..|picks|] == picks[1..];
      PickAdvances(universe, sets[0], start, picks[0], goal);
      ProperSubsetIsSmaller(Ahead(universe, picks[0], goal), Ahead(universe, start, goal));
      LessTotal(picks[0], goal);
      assert goal in Ahead(universe, picks[0], goal);
      assert |Ahead(universe, picks[0], goal)| > 0;
      ReachedWithin(universe, sets[1..], picks[0], picks[1..], goal);
      var k :| 0 <= k < |Ahead(universe, picks[0], goal)| && picks[1..][k] == goal;
      assert picks[k + 1] == goal;
    }
  }

  lemma ProperSubsetIsSmaller<T>(a: set<T>, b: set<T>)
    requires a < b
    ensures |a| < |b|
  {
    assert b == a + (b - a);
  }

  lemma SubsetIsNotLarger<T>(a: set<T>, b: set<T>)
    requires a <= b
    ensures |a| <= |b|
  {
    assert b == a + (b - a);
  }

  /** No starvation: an account offered at every call is picked within as many
      consecutive calls as there are IDs ever offered, however the candidates
      change and whatever the cursor held. */
  lemma NoStarvation(universe: set<string>, sets: seq<set<string>>, start: string, picks: seq<string>, goal: string)
    requires "" !in universe && CursorRun(sets, start, picks)
    requires forall k :: 0 <= k < |sets| ==> goal in sets[k] && sets[k] <= universe
    requires |sets| >= |universe| && |sets| > 0
    ensures exists k :: 0 <= k < |universe| && picks[k] == goal
  {
    SubsetIsNotLarger(Ahead(universe, start, goal), universe);
    ReachedWithin(universe, sets, start, picks, goal);
  }

  /** An empty account ID among the candidates breaks the rotation: once picked it
      makes the cursor read as unset, and it is picked for ever. */
  lemma EmptyIdStarves(ids: set<string>, n: nat)
    requires "" in ids
    ensures CursorRun(seq(n, _ => ids), "", seq(n, _ => ""))
  {
    var sets, picks := seq(n, _ => ids), seq(n, _ => "");
    assert forall k :: 0 <= k < n ==> CallFollowsCursor(sets, "", picks, k);
  }

  /** A run that never picks an account although it is offered at every call, over as
      many calls as there are IDs ever offered. */
  ghost predicate Starves(universe: set<string>, sets: seq<set<string>>, start: string, picks: seq<string>,
      goal: string) {
    && CursorRun(sets, start, picks) && |sets| >= |universe| && |sets| > 0
    && (forall k :: 0 <= k < |sets| ==> goal in sets[k] && sets[k] <= universe)
    && forall k :: 0 <= k < |universe| ==> picks[k] != goal
  }

  ghost predicate NobodyStarves(universe: set<string>) {
    forall sets, start, picks, goal :: !Starves(universe, sets, start, picks, goal)
  }

  lemma FirstPickIsOffered(sets: seq<set<string>>, start: string, picks: seq<string>)
    requires CursorRun(sets, start, picks) && |sets| > 0
    ensures picks[0] in sets[0]
  {
    assert CallFollowsCursor(sets, start, picks, 0);
  }

  /** So the rotation starves nobody exactly when no ID is empty, or there is no other. */
  lemma NobodyStarvesIff(universe: set<string>)
    ensures NobodyStarves(universe) <==> "" !in universe || universe == {""}
  {
    if "" !in universe {
      forall sets, start, picks, goal
        ensures !Starves(universe, sets, start, picks, goal)
      {
        if Starves(universe, sets, start, picks, goal) {
          NoStarvation(universe, sets, start, picks, goal);
          assert false;
        }
      }
    } else if universe == {""} {
      forall sets, start, picks, goal
        ensures !Starves(universe, sets, start, picks, goal)
      {
        if Starves(universe, sets, start, picks, goal) {
          FirstPickIsOffered(sets, start, picks);
          assert false;
        }
      }
    } else {
      var n := |universe|;
      assert |universe - {""}| == n - 1;
      var goal :| goal in universe && goal != "";
      EmptyIdStarves(universe, n);
      assert Starves(universe, seq(n, _ => universe), "", seq(n, _ => ""), goal);
    }
  }

  /** Over a fixed set of n IDs any n consecutive picks are a permutation of it. */
  lemma FixedSetIsPermuted(ids: set<string>, start: string, picks: seq<string>, from: nat)
    requires ids != {} && "" !in ids
    requires CursorRun(seq(|picks|, _ => ids), start, picks)
    requires from + |ids| <= |picks|
    ensures var window := picks[from..from + |ids|];
            (set x | x in window) == ids && forall i, j :: 0 <= i < j < |window| ==> window[i] != window[j]
  {
    var n := |ids|;
    var window, cursor := picks[from..from + n], CursorBefore(start, picks, from);
    RunWindow(seq(|picks|, _ => ids), start, picks, from, from + n);
    assert seq(|picks|, _ => ids)[from..from + n] == seq(n, _ => ids);
    forall goal | goal in ids
      ensures goal in window
    {
      NoStarvation(ids, seq(n, _ => ids), cursor, window, goal);
    }
    forall x | x in window
      ensures x in ids
    {
      var k :| 0 <= k < n && window[k] == x;
      assert CallFollowsCursor(seq(n, _ => ids), cursor, window, k);
    }
    assert (set x | x in window) == ids;
    NoRepeats(window);
  }
}
