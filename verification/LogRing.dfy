/** The request log: entries appended in memory, pruned after every append by age and
    by number, and queried page by page, newest first. */
module LogRing {
  const DEFAULT_RETENTION_DAYS := 90
  const MAX_RETENTION_DAYS := 3650
  const MIN_MAX_ENTRIES := 100
  const DEFAULT_MAX_ENTRIES := 2000
  const MAX_ENTRIES_HARD_CAP := 100000

  const DAY := 24 * 60 * 60

  datatype Entry = Entry(id: int, keyId: string, model: string, status: int, error: string, createdAt: int)

  /** The age in seconds and the number of entries kept. */
  datatype Limits = Limits(retention: int, maxEntries: int)

  datatype Log = Log(entries: seq<Entry>, nextId: int, limits: Limits)

  function NormalizeRetention(days: int): (seconds: int)
    ensures DAY <= seconds <= MAX_RETENTION_DAYS * DAY
    ensures 0 < days <= MAX_RETENTION_DAYS ==> seconds == days * DAY
    ensures days <= 0 ==> seconds == 90 * DAY
    ensures days > 3650 ==> seconds == 3650 * DAY
  {
    var days := if days <= 0 then DEFAULT_RETENTION_DAYS else days;
    (if days > MAX_RETENTION_DAYS then MAX_RETENTION_DAYS else days) * DAY
  }

  function NormalizeMaxEntries(n: int): (cap: int)
    ensures MIN_MAX_ENTRIES <= cap <= MAX_ENTRIES_HARD_CAP
    ensures MIN_MAX_ENTRIES <= n <= MAX_ENTRIES_HARD_CAP ==> cap == n
    ensures n <= 0 ==> cap == 2000
    ensures 0 < n < 100 ==> cap == 100
    ensures n > 100000 ==> cap == 100000
  {
    if n <= 0 then DEFAULT_MAX_ENTRIES
    else if n < MIN_MAX_ENTRIES then MIN_MAX_ENTRIES
    else if n > MAX_ENTRIES_HARD_CAP then MAX_ENTRIES_HARD_CAP
    else n
  }

  function LimitsFor(days: int, maxEntries: int): Limits {
    Limits(NormalizeRetention(days), NormalizeMaxEntries(maxEntries))
  }

  /** The number of entries before the first that is not older than the cutoff. */
  function Expired(entries: seq<Entry>, cutoff: int): (k: nat)
    ensures k <= |entries| && (k < |entries| ==> entries[k].createdAt >= cutoff)
    ensures forall i :: 0 <= i < k ==> entries[i].createdAt < cutoff
  {
    if entries == [] || entries[0].createdAt >= cutoff then 0 else 1 + Expired(entries[1..], cutoff)
  }

  lemma {:induction false} ExpiredUnique(entries: seq<Entry>, cutoff: int, k: nat)
    requires k <= |entries| && (k < |entries| ==> entries[k].createdAt >= cutoff)
    requires forall i :: 0 <= i < k ==> entries[i].createdAt < cutoff
    ensures Expired(entries, cutoff) == k
  {
    if k > 0 {
      ExpiredUnique(entries[1..], cutoff, k - 1);
    }
  }

  function Newest(entries: seq<Entry>, n: int): seq<Entry> {
    if 0 < n < |entries| then entries[|entries| - n..] else entries
  }

  /** One-shot pruning at the given clock. */
  function Pruned(entries: seq<Entry>, limits: Limits, now: int): seq<Entry> {
    var recent := if limits.retention > 0 then entries[Expired(entries, now - limits.retention)..] else entries;
    Newest(recent, limits.maxEntries)
  }

  /** Pruning by age and then by number. */
  lemma PrunedInSteps(entries: seq<Entry>, limits: Limits, now: int, drop: nat)
    requires drop == if limits.retention > 0 then Expired(entries, now - limits.retention) else 0
    ensures drop <= |entries|
    ensures var recent := entries[drop..];
      Pruned(entries, limits, now) ==
        if 0 < limits.maxEntries < |recent| then recent[|recent| - limits.maxEntries..] else recent
    ensures entries[0..] == entries
  {
    hide Expired;
  }

  /** In a chronological log pruning keeps exactly the entries that are young enough and
      among the newest, as many as the cap allows. */
  lemma PrunedMeaning(entries: seq<Entry>, limits: Limits, now: int, i: nat)
    requires limits.retention > 0 && limits.maxEntries > 0 && i < |entries|
    requires forall j, k :: 0 <= j < k < |entries| ==> entries[j].createdAt <= entries[k].createdAt
    ensures var kept := Pruned(entries, limits, now);
      && |kept| <= |entries| && kept == entries[|entries| - |kept|..]
      && (i >= |entries| - |kept| <==>
            entries[i].createdAt >= now - limits.retention && i >= |entries| - limits.maxEntries)
  {
    hide Expired;
    var k := Expired(entries, now - limits.retention);
    assert k <= i ==> entries[k].createdAt <= entries[i].createdAt;
  }

  /** How many of the oldest entries pruning takes away. */
  function Cut(entries: seq<Entry>, limits: Limits, now: int): (k: nat)
    ensures k <= |entries|
  {
    var aged := if limits.retention > 0 then Expired(entries, now - limits.retention) else 0;
    if limits.maxEntries > 0 && |entries| - limits.maxEntries > aged then |entries| - limits.maxEntries else aged
  }

  lemma PrunedIsSuffix(entries: seq<Entry>, limits: Limits, now: int)
    ensures Pruned(entries, limits, now) == entries[Cut(entries, limits, now)..]
  {
  }

  function Stamped(log: Log, e: Entry, stamp: int): Entry {
    e.(id := log.nextId, createdAt := if e.createdAt == 0 then stamp else e.createdAt)
  }

  /** stamp and now are the two clock readings of a call. */
  datatype Op =
    | Append(entry: Entry, stamp: int, now: int)
    | Limit(days: int, maxEntries: int, now: int)

  function Apply(log: Log, op: Op): Log {
    match op
    case Append(e, stamp, now) =>
      Log(Pruned(log.entries + [Stamped(log, e, stamp)], log.limits, now), log.nextId + 1, log.limits)
    case Limit(days, maxEntries, now) =>
      var limits := LimitsFor(days, maxEntries);
      Log(Pruned(log.entries, limits, now), log.nextId, limits)
  }

  /** An entry is recorded under the next identifier, at its own time or else at the clock,
      and otherwise as it was given. */
  lemma RecordedAsGiven(log: Log, e: Entry, stamp: int)
    ensures var x := Stamped(log, e, stamp);
      && x.id == log.nextId && x.createdAt == (if e.createdAt == 0 then stamp else e.createdAt)
      && x.keyId == e.keyId && x.model == e.model && x.status == e.status && x.error == e.error
  {
  }

  class Recorder {
    var entries: seq<Entry>
    var nextId: int
    var limits: Limits
    var dirty: bool

    ghost function View(): Log
      reads this
    {
      Log(entries, nextId, limits)
    }

    /** Restores the persisted entries, if any, and prunes them at the given clock. */
    constructor (loaded: seq<Entry>, days: int, maxEntries: int, now: int)
      ensures limits == LimitsFor(days, maxEntries) && entries == Pruned(loaded, limits, now) &&
          (dirty <==> loaded != [])
      ensures nextId >= 1 && forall e :: e in loaded ==> e.id < nextId
      ensures nextId == 1 || exists e :: e in loaded && nextId == e.id + 1
    {
      limits := LimitsFor(days, maxEntries);
      nextId := 1;
      entries := [];
      dirty := false;
      new;
      if |loaded| > 0 {
        entries := loaded;
        for i := 0 to |entries|
          invariant entries == loaded && limits == LimitsFor(days, maxEntries) && nextId >= 1
          invariant forall k :: 0 <= k < i ==> loaded[k].id < nextId
          invariant nextId == 1 || exists e :: e in loaded && nextId == e.id + 1
        {
          if entries[i].id >= nextId {
            assert entries[i] in loaded;
            nextId := entries[i].id + 1;
          }
        }
        PruneLocked(now);
        dirty := true;
      }
    }

    method Record(entry: Entry, stamp: int, now: int)
      modifies this
      ensures View() == Apply(old(View()), Append(entry, stamp, now)) && dirty
    {
      dirty := true;
      var e := entry.(id := nextId);
      nextId := nextId + 1;
      if e.createdAt == 0 {
        e := e.(createdAt := stamp);
      }
      entries := entries + [e];
      PruneLocked(now);
    }

    method SetLimits(days: int, maxEntries: int, now: int)
      modifies this
      ensures View() == Apply(old(View()), Limit(days, maxEntries, now))
      ensures dirty <==> old(dirty) || entries != old(entries)
    {
      limits := LimitsFor(days, maxEntries);
      var before := |entries|;
      PruneLocked(now);
      if |entries| != before {
        dirty := true;
      }
    }

    method PruneLocked(now: int)
      modifies this`entries
      ensures entries == Pruned(old(entries), limits, now)
    {
      hide Expired, Pruned, Newest;
      ghost var dropped := 0;
      if limits.retention > 0 {
        var cutoff := now - limits.retention;
        var drop := 0;
        while drop < |entries| && entries[drop].createdAt < cutoff
          invariant 0 <= drop <= |entries|
          invariant forall i :: 0 <= i < drop ==> entries[i].createdAt < cutoff
        {
          drop := drop + 1;
        }
        ExpiredUnique(entries, cutoff, drop);
        dropped := drop;
        if drop > 0 {
          entries := entries[drop..];
        }
      }
      PrunedInSteps(old(entries), limits, now, dropped);
      if limits.maxEntries > 0 && |entries| > limits.maxEntries {
        var excess := |entries| - limits.maxEntries;
        entries := entries[excess..];
      }
    }

    /** One page of the entries that match, newest first. */
    method Query(filter: Filter) returns (result: Result)
      ensures result.pageSize == PageSizeFor(filter) && result.page == PageFor(filter)
      ensures result.total == |NewestFirst(entries, filter)|
      ensures result.logs == Page(NewestFirst(entries, filter), result.page, result.pageSize)
    {
      hide Contains, NewestFirst;
      var page := if filter.page < 1 then 1 else filter.page;
      var pageSize := if filter.pageSize < 1 || filter.pageSize > 100 then 20 else filter.pageSize;
      var matched: seq<Entry> := [];
      var i := |entries| - 1;
      assert entries[..|entries|] == entries && [] + NewestFirst(entries, filter) == NewestFirst(entries, filter);
      while i >= 0
        invariant -1 <= i < |entries|
        invariant matched + NewestFirst(entries[..i + 1], filter) == NewestFirst(entries, filter)
      {
        var e := entries[i];
        ghost var rest := NewestFirst(entries[..i], filter);
        NewestFirstStep(entries, i, filter);
        i := i - 1;
        if filter.model != "" {
          var found := ContainsFold(e.model, filter.model);
          if !found {
            continue;
          }
        }
        if filter.keyId != "" && e.keyId != filter.keyId {
          continue;
        }
        if filter.status > 0 && e.status != filter.status {
          continue;
        }
        if filter.status < 0 && e.status < 400 && e.error == "" {
          continue;
        }
        assert matched + ([e] + rest) == matched + [e] + rest;
        matched := matched + [e];
      }
      assert entries[..0] == [] && matched + [] == matched;
      NewestFirstOfNone(filter);
      PageStartsInside(page, pageSize);
      var total := |matched|;
      var start := (page - 1) * pageSize;
      if start > total {
        start := total;
      }
      var end := start + pageSize;
      if end > total {
        end := total;
      }
      result := Result(matched[start..end], total, page, pageSize);
    }
  }

  // --- Incremental pruning against one-shot pruning ---

  function RunOps(log: Log, ops: seq<Op>): Log {
    if ops == [] then log else Apply(RunOps(log, ops[..|ops| - 1]), ops[|ops| - 1])
  }

  /** Everything the log ever held. */
  function History(log: Log, ops: seq<Op>): seq<Entry> {
    if ops == [] then log.entries
    else
      var init, last := ops[..|ops| - 1], ops[|ops| - 1];
      History(log, init) + if last.Append? then [Stamped(RunOps(log, init), last.entry, last.stamp)] else []
  }

  /** The first entry from a position on that is not past the retention. */
  function Aged(history: seq<Entry>, limits: Limits, now: int, from: nat): (k: nat)
    requires from <= |history|
    ensures from <= k <= |history|
  {
    if limits.retention > 0 then from + Expired(history[from..], now - limits.retention) else from
  }

  /** How many entries the cap leaves no room for. */
  function Overflow(history: seq<Entry>, limits: Limits): (k: nat)
    ensures k <= |history|
  {
    if 0 < limits.maxEntries < |history| then |history| - limits.maxEntries else 0
  }

  function Max(a: nat, b: nat): nat {
    if a < b then b else a
  }

  /** How many of the oldest entries are gone: each pruning scans on from where the one
      before left off. */
  function Gone(log: Log, ops: seq<Op>): (k: nat)
    ensures k <= |History(log, ops)|
  {
    if ops == [] then 0
    else
      var history, limits := History(log, ops), RunOps(log, ops).limits;
      var before := Gone(log, ops[..|ops| - 1]);
      Max(Aged(history, limits, ops[|ops| - 1].now, before), Overflow(history, limits))
  }

  lemma PrunedFrom(history: seq<Entry>, from: nat, limits: Limits, now: int)
    requires from <= |history|
    ensures Pruned(history[from..], limits, now) ==
            history[Max(Aged(history, limits, now, from), Overflow(history, limits))..]
  {
  }

  /** Whatever times the entries carry, whatever the clock does and however the limits
      change, the log is its history without the entries gone. */
  lemma {:induction false} RetainedIsHistoryFromGone(log: Log, ops: seq<Op>)
    ensures RunOps(log, ops).entries == History(log, ops)[Gone(log, ops)..]
  {
    hide Pruned, Aged, Overflow, Gone;
    GoneStep(log, ops);
    if ops != [] {
      var init, last := ops[..|ops| - 1], ops[|ops| - 1];
      RetainedIsHistoryFromGone(log, init);
      var before, history, from := History(log, init), History(log, ops), Gone(log, init);
      var added := if last.Append? then [Stamped(RunOps(log, init), last.entry, last.stamp)] else [];
      assert history == before + added;
      assert RunOps(log, init).entries + added == history[from..];
      assert last.Limit? ==> RunOps(log, init).entries == history[from..];
      PrunedFrom(history, from, RunOps(log, ops).limits, last.now);
    }
  }

  lemma GoneStep(log: Log, ops: seq<Op>)
    ensures Gone(log, ops) ==
            if ops == [] then 0
            else
              var history, limits := History(log, ops), RunOps(log, ops).limits;
              Max(Aged(history, limits, ops[|ops| - 1].now, Gone(log, ops[..|ops| - 1])), Overflow(history, limits))
  {
  }

  /** Whether pruning on from what is already gone reaches as far as one pruning of the
      whole history: what is gone is past the retention anyway, or the cap would take
      what the scan skipped. */
  predicate ReachesAsFar(history: seq<Entry>, limits: Limits, now: int, gone: nat)
    requires gone <= |history|
  {
    gone <= Aged(history, limits, now, 0) || Aged(history, limits, now, gone) <= Overflow(history, limits)
  }

  /** The retained log is the whole history pruned once, at the last clock and limits,
      exactly when the last pruning reaches as far. */
  lemma OneShotIff(log: Log, ops: seq<Op>)
    requires ops != []
    ensures var end, history, now := RunOps(log, ops), History(log, ops), ops[|ops| - 1].now;
            && Gone(log, ops[..|ops| - 1]) <= |history|
            && (end.entries == Pruned(history, end.limits, now) <==>
                ReachesAsFar(history, end.limits, now, Gone(log, ops[..|ops| - 1])))
  {
    hide Pruned, Aged, Overflow, RunOps;
    var history, limits, now := History(log, ops), RunOps(log, ops).limits, ops[|ops| - 1].now;
    var before := Gone(log, ops[..|ops| - 1]);
    RetainedIsHistoryFromGone(log, ops);
    assert history[0..] == history;
    PrunedFrom(history, 0, limits, now);
    AgedFurther(history, limits, now, before);
    SuffixesDiffer(history, Gone(log, ops), Max(Aged(history, limits, now, 0), Overflow(history, limits)));
  }

  lemma SuffixesDiffer(s: seq<Entry>, a: nat, b: nat)
    requires a <= |s| && b <= |s|
    ensures s[a..] == s[b..] <==> a == b
  {
    assert |s[a..]| == |s| - a && |s[b..]| == |s| - b;
  }

  /** The scan from a position short of the first live entry stops there. */
  lemma AgedFurther(history: seq<Entry>, limits: Limits, now: int, from: nat)
    requires from <= |history|
    ensures from <= Aged(history, limits, now, 0) ==> Aged(history, limits, now, from) == Aged(history, limits, now, 0)
  {
    var first := Aged(history, limits, now, 0);
    if limits.retention > 0 && from <= first {
      hide Expired;
      assert history[0..] == history;
      ExpiredUnique(history[from..], now - limits.retention, first - from);
    }
  }

  // --- Histories in the order of their times ---

  predicate Chronological(entries: seq<Entry>) {
    forall i, j :: 0 <= i < j < |entries| ==> entries[i].createdAt <= entries[j].createdAt
  }

  /** How deep the last operation would prune the whole history. */
  function LastCut(log: Log, ops: seq<Op>): nat
    requires ops != []
  {
    Cut(History(log, ops), RunOps(log, ops).limits, ops[|ops| - 1].now)
  }

  /** No operation cut deeper than the last. */
  predicate LastCutsDeepest(log: Log, ops: seq<Op>)
    requires ops != []
  {
    forall k :: 0 < k <= |ops| ==> LastCut(log, ops[..k]) <= LastCut(log, ops)
  }

  lemma CutIsMax(history: seq<Entry>, limits: Limits, now: int)
    ensures Cut(history, limits, now) == Max(Aged(history, limits, now, 0), Overflow(history, limits))
  {
    assert history[0..] == history;
  }

  /** In a chronological history everything behind a live entry is live. */
  lemma AgedInOrder(history: seq<Entry>, limits: Limits, now: int, from: nat)
    requires from <= |history| && Chronological(history)
    ensures Aged(history, limits, now, from) == Max(from, Aged(history, limits, now, 0))
  {
    AgedFurther(history, limits, now, from);
    var first := Aged(history, limits, now, 0);
    if limits.retention > 0 && first < from {
      hide Expired;
      assert history[0..] == history;
      ExpiredUnique(history[from..], now - limits.retention, 0);
    }
  }

  /** Then what is gone is the deepest cut ever made of the whole history. */
  lemma {:induction false} GoneIsDeepestCut(log: Log, ops: seq<Op>)
    requires Chronological(History(log, ops))
    ensures forall k :: 0 < k <= |ops| ==> LastCut(log, ops[..k]) <= Gone(log, ops)
    ensures Gone(log, ops) == 0 || exists k :: 0 < k <= |ops| && LastCut(log, ops[..k]) == Gone(log, ops)
  {
    hide RunOps, Cut, Aged, Overflow;
    if ops != [] {
      var init := ops[..|ops| - 1];
      var before, history := History(log, init), History(log, ops);
      assert Chronological(before) by {
        assert forall i :: 0 <= i < |before| ==> before[i] == history[i];
      }
      GoneIsDeepestCut(log, init);
      assert ops[..|ops|] == ops;
      CutIsMax(history, RunOps(log, ops).limits, ops[|ops| - 1].now);
      AgedInOrder(history, RunOps(log, ops).limits, ops[|ops| - 1].now, Gone(log, init));
      hide Gone, History;
      GoneStep(log, ops);
      forall k | 0 < k <= |init|
        ensures init[..k] == ops[..k]
      {
      }
      if Gone(log, ops) != LastCut(log, ops) && Gone(log, ops) != 0 {
        var k :| 0 < k <= |init| && LastCut(log, init[..k]) == Gone(log, init);
        assert LastCut(log, ops[..k]) == Gone(log, ops);
      }
    }
  }

  /** So there the two agree exactly when no earlier pruning cut deeper. */
  lemma ChronologicalOneShotIff(log: Log, ops: seq<Op>)
    requires ops != [] && Chronological(History(log, ops))
    ensures var end := RunOps(log, ops);
      end.entries == Pruned(History(log, ops), end.limits, ops[|ops| - 1].now) <==> LastCutsDeepest(log, ops)
  {
    hide RunOps, History, Gone, Pruned, Cut;
    RetainedIsHistoryFromGone(log, ops);
    GoneIsDeepestCut(log, ops);
    PrunedIsSuffix(History(log, ops), RunOps(log, ops).limits, ops[|ops| - 1].now);
    SuffixesDiffer(History(log, ops), Gone(log, ops), LastCut(log, ops));
    assert ops[..|ops|] == ops;
  }

  /** Limits that were never relaxed: raising a cap or a retention does not bring back
      what is gone. */
  predicate Tightens(before: Limits, after: Limits) {
    after.retention <= before.retention && after.maxEntries <= before.maxEntries
  }

  /** A clock that never goes back, bare entries, and limits never relaxed. */
  ghost predicate Regular(log: Log, ops: seq<Op>) {
    forall k :: 0 <= k < |ops| ==>
      && (ops[k].Append? ==> ops[k].entry.createdAt == 0 && ops[k].stamp <= ops[k].now)
      && (k > 0 ==> ops[k - 1].now <= if ops[k].Append? then ops[k].stamp else ops[k].now)
      && Tightens(RunOps(log, ops[..k]).limits, RunOps(log, ops[..k + 1]).limits)
  }

  lemma RegularInit(log: Log, ops: seq<Op>)
    requires ops != [] && Regular(log, ops)
    ensures Regular(log, ops[..|ops| - 1])
    ensures Tightens(RunOps(log, ops[..|ops| - 1]).limits, RunOps(log, ops).limits)
  {
    hide RunOps;
    var n := |ops| - 1;
    assert ops[..n + 1] == ops;
    forall k | 0 <= k <= n
      ensures ops[..n][..k] == ops[..k]
    {
    }
  }

  predicate Started(log: Log, now: int) {
    Chronological(log.entries) && forall i :: 0 <= i < |log.entries| ==> log.entries[i].createdAt <= now
  }

  /** A forward clock orders the history. */
  lemma {:induction false} ClockOrdersHistory(log: Log, ops: seq<Op>, start: int)
    requires Regular(log, ops) && Started(log, start)
    requires ops != [] ==> start <= if ops[0].Append? then ops[0].stamp else ops[0].now
    ensures Chronological(History(log, ops))
    ensures forall i :: 0 <= i < |History(log, ops)| ==>
      History(log, ops)[i].createdAt <= if ops == [] then start else ops[|ops| - 1].now
  {
    if ops != [] {
      RegularInit(log, ops);
      ClockOrdersHistory(log, ops[..|ops| - 1], start);
    }
  }

  lemma CutGrows(before: seq<Entry>, after: seq<Entry>, l: Limits, m: Limits, now: int, later: int)
    requires before <= after && now <= later
    requires 0 < m.retention <= l.retention && 0 < m.maxEntries <= l.maxEntries
    ensures Cut(before, l, now) <= Cut(after, m, later)
  {
    hide Expired;
    assert forall i :: 0 <= i < |before| ==> after[i] == before[i];
  }

  lemma {:induction false} RunKeepsLimitsPositive(log: Log, ops: seq<Op>)
    requires log.limits.retention > 0 && log.limits.maxEntries > 0
    ensures RunOps(log, ops).limits.retention > 0 && RunOps(log, ops).limits.maxEntries > 0
  {
    if ops != [] {
      RunKeepsLimitsPositive(log, ops[..|ops| - 1]);
    }
  }

  lemma {:induction false} RegularLastCutsDeepest(log: Log, ops: seq<Op>)
    requires ops != [] && Regular(log, ops) && log.limits.retention > 0 && log.limits.maxEntries > 0
    ensures LastCutsDeepest(log, ops)
  {
    hide Pruned, Cut, Expired;
    var init := ops[..|ops| - 1];
    assert ops[..|ops|] == ops;
    if init != [] {
      RegularInit(log, ops);
      RegularLastCutsDeepest(log, init);
      RunKeepsLimitsPositive(log, ops);
      CutGrows(History(log, init), History(log, ops), RunOps(log, init).limits, RunOps(log, ops).limits,
               init[|init| - 1].now, ops[|ops| - 1].now);
      assert LastCut(log, init) <= LastCut(log, ops);
      forall k | 0 < k <= |init|
        ensures LastCut(log, ops[..k]) <= LastCut(log, ops)
      {
        assert init[..k] == ops[..k];
      }
    }
  }

  /** With limits never relaxed and a clock that never goes back, pruning after every
      append keeps exactly what pruning the whole history once would keep. */
  lemma IncrementalIsOneShot(log: Log, ops: seq<Op>, start: int)
    requires ops != [] && Regular(log, ops) && Started(log, start)
    requires start <= if ops[0].Append? then ops[0].stamp else ops[0].now
    requires log.limits.retention > 0 && log.limits.maxEntries > 0
    ensures var end := RunOps(log, ops);
      end.entries == Pruned(History(log, ops), end.limits, ops[|ops| - 1].now)
  {
    ClockOrdersHistory(log, ops, start);
    RegularLastCutsDeepest(log, ops);
    ChronologicalOneShotIff(log, ops);
  }

  /** A clock that is set back after the first entry: this many entries at the earlier
      time follow it. */
  function SetBack(e: Entry, late: int, first: int, n: nat): (ops: seq<Op>)
    ensures |ops| == n + 1
  {
    [Append(e, late, late)] + seq(n, _ => Append(e, first, first))
  }

  lemma {:induction false} SetBackHistory(log: Log, e: Entry, late: int, first: int, n: nat)
    requires log.entries == [] && e.createdAt == 0
    ensures var history := History(log, SetBack(e, late, first, n));
      && |history| == n + 1 && history[0].createdAt == late
      && (forall i :: 0 < i <= n ==> history[i].createdAt == first)
      && RunOps(log, SetBack(e, late, first, n)).limits == log.limits
  {
    hide Pruned;
    var ops := SetBack(e, late, first, n);
    if n == 0 {
      assert ops[..|ops| - 1] == [];
    } else {
      assert ops[..|ops| - 1] == SetBack(e, late, first, n - 1);
      SetBackHistory(log, e, late, first, n - 1);
    }
  }

  lemma NothingAged(history: seq<Entry>, limits: Limits, now: int, from: nat)
    requires from < |history| && history[from].createdAt >= now - limits.retention
    ensures Aged(history, limits, now, from) == from
  {
    ExpiredUnique(history[from..], now - limits.retention, 0);
  }

  /** As long as nothing is past the retention only the cap takes entries. */
  lemma {:induction false} SetBackGone(log: Log, e: Entry, late: int, first: int, n: nat)
    requires log.entries == [] && e.createdAt == 0 && first <= late && log.limits.retention > 0
    requires 2 <= log.limits.maxEntries
    ensures Gone(log, SetBack(e, late, first, n)) == if n < log.limits.maxEntries then 0
        else n + 1 - log.limits.maxEntries
  {
    hide RunOps, Aged, Gone;
    var ops := SetBack(e, late, first, n);
    var history := History(log, ops);
    SetBackHistory(log, e, late, first, n);
    GoneStep(log, ops);
    if n == 0 {
      assert ops[..|ops| - 1] == [];
      GoneStep(log, []);
      NothingAged(history, log.limits, late, 0);
    } else {
      assert ops[..|ops| - 1] == SetBack(e, late, first, n - 1);
      SetBackGone(log, e, late, first, n - 1);
      NothingAged(history, log.limits, first, Gone(log, ops[..|ops| - 1]));
    }
  }

  /** A clock set back breaks it, from an empty log on. The late first entry shields the
      expired ones behind it from one-shot pruning; incremental pruning drops them, once
      the cap has pushed that entry out. One-shot pruning would keep a full log. */
  lemma ClockSetBackDiverges(limits: Limits, e: Entry, late: int, first: int, second: int)
    requires limits.retention > 0 && limits.maxEntries >= 2 && e.createdAt == 0
    requires first <= late && first + limits.retention < second <= late + limits.retention
    ensures var ops := SetBack(e, late, first, limits.maxEntries) + [Append(e, second, second)];
      var log := Log([], 1, limits);
      && |RunOps(log, ops).entries| == 1
      && |Pruned(History(log, ops), limits, second)| == limits.maxEntries
  {
    hide RunOps, Gone, Pruned, Cut, Aged;
    var log, n := Log([], 1, limits), limits.maxEntries;
    var before := SetBack(e, late, first, n);
    var ops := before + [Append(e, second, second)];
    assert ops[..|ops| - 1] == before;
    SetBackHistory(log, e, late, first, n);
    SetBackGone(log, e, late, first, n);
    var history := History(log, ops);
    LimitsStay(log, ops);
    GoneStep(log, ops);
    AgedTo(history, limits, second, 1, n + 1);
    RetainedIsHistoryFromGone(log, ops);
    NothingAged(history, limits, second, 0);
    assert history[0..] == history;
    PrunedFrom(history, 0, limits, second);
  }

  lemma LimitsStay(log: Log, ops: seq<Op>)
    requires ops != [] && ops[|ops| - 1].Append?
    ensures RunOps(log, ops).limits == RunOps(log, ops[..|ops| - 1]).limits
  {
    hide Pruned;
  }

  lemma AgedTo(history: seq<Entry>, limits: Limits, now: int, from: nat, to: nat)
    requires limits.retention > 0 && from <= to < |history| && history[to].createdAt >= now - limits.retention
    requires forall i :: from <= i < to ==> history[i].createdAt < now - limits.retention
    ensures Aged(history, limits, now, from) == to
  {
    ExpiredUnique(history[from..], now - limits.retention, to - from);
  }

  // --- Identifiers ---

  predicate Ordered(log: Log) {
    && (forall i, j :: 0 <= i < j < |log.entries| ==> log.entries[i].id < log.entries[j].id)
    && forall i :: 0 <= i < |log.entries| ==> log.entries[i].id < log.nextId
  }

  function Appends(ops: seq<Op>): nat {
    if ops == [] then 0 else Appends(ops[..|ops| - 1]) + if ops[|ops| - 1].Append? then 1 else 0
  }

  lemma ApplyKeepsOrdered(log: Log, op: Op)
    requires Ordered(log)
    ensures Ordered(Apply(log, op))
  {
    hide Pruned, Cut;
    var grown := if op.Append? then log.entries + [Stamped(log, op.entry, op.stamp)] else log.entries;
    var limits := if op.Append? then log.limits else LimitsFor(op.days, op.maxEntries);
    PrunedIsSuffix(grown, limits, op.now);
    var k := Cut(grown, limits, op.now);
    assert Apply(log, op).entries == grown[k..];
    assert forall i :: 0 <= i < |grown| - k ==> grown[k..][i] == grown[k + i];
  }

  /** Identifiers increase strictly along the log and are never used twice, whatever
      is pruned and whatever times the entries carry. */
  lemma {:induction false} IdsIncrease(log: Log, ops: seq<Op>)
    requires Ordered(log)
    ensures Ordered(RunOps(log, ops))
    ensures RunOps(log, ops).nextId == log.nextId + Appends(ops)
    ensures Ordered(Log(History(log, ops), log.nextId + Appends(ops), log.limits))
  {
    hide Pruned;
    if ops != [] {
      var init, last := ops[..|ops| - 1], ops[|ops| - 1];
      IdsIncrease(log, init);
      ApplyKeepsOrdered(RunOps(log, init), last);
    }
  }

  // --- Queries ---

  /** Model matches as a part of the name, KeyID exactly. A positive status matches
      itself, a negative one errors only; empty text and 0 match everything. */
  datatype Filter = Filter(model: string, keyId: string, status: int, page: int, pageSize: int)

  datatype Result = Result(logs: seq<Entry>, total: int, page: int, pageSize: int)

  function Lower(c: char): char {
    if 'A' <= c <= 'Z' then (c as int + 32) as char else c
  }

  predicate FoldsAt(s: string, sub: string, i: nat) {
    i + |sub| <= |s| && forall k :: 0 <= k < |sub| ==> Lower(s[i + k]) == Lower(sub[k])
  }

  predicate Contains(s: string, sub: string) {
    exists i :: 0 <= i <= |s| && FoldsAt(s, sub, i)
  }

  method ContainsFold(s: string, sub: string) returns (found: bool)
    ensures found <==> Contains(s, sub)
  {
    if sub == "" {
      assert FoldsAt(s, sub, 0);
      return true;
    }
    if |sub| > |s| {
      return false;
    }
    var i := 0;
    while i + |sub| <= |s|
      invariant 0 <= i <= |s|
      invariant forall j :: 0 <= j < i ==> !FoldsAt(s, sub, j)
    {
      var part := s[i..i + |sub|];
      assert forall k :: 0 <= k < |sub| ==> part[k] == s[i + k];
      var equal := EqualFold(part, sub);
      if equal {
        assert FoldsAt(s, sub, i);
        return true;
      }
      i := i + 1;
    }
    return false;
  }

  method EqualFold(a: string, b: string) returns (equal: bool)
    ensures equal <==> |a| == |b| && forall k :: 0 <= k < |a| ==> Lower(a[k]) == Lower(b[k])
  {
    if |a| != |b| {
      return false;
    }
    for i := 0 to |a|
      invariant forall k :: 0 <= k < i ==> Lower(a[k]) == Lower(b[k])
    {
      var ca, cb := a[i], b[i];
      if 'A' <= ca <= 'Z' {
        ca := (ca as int + 32) as char;
      }
      if 'A' <= cb <= 'Z' {
        cb := (cb as int + 32) as char;
      }
      if ca != cb {
        return false;
      }
    }
    return true;
  }

  predicate Matches(e: Entry, f: Filter) {
    && (f.model != "" ==> Contains(e.model, f.model))
    && (f.keyId != "" ==> e.keyId == f.keyId)
    && (f.status > 0 ==> e.status == f.status)
    && (f.status < 0 ==> e.status >= 400 || e.error != "")
  }

  function PageFor(f: Filter): (page: int)
    ensures page >= 1 && (f.page >= 1 ==> page == f.page)
  {
    if f.page < 1 then 1 else f.page
  }

  function PageSizeFor(f: Filter): (size: int)
    ensures 1 <= size <= 100 && if 1 <= f.pageSize <= 100 then size == f.pageSize else size == 20
  {
    if f.pageSize < 1 || f.pageSize > 100 then 20 else f.pageSize
  }

  function NewestFirst(entries: seq<Entry>, f: Filter): seq<Entry> {
    if entries == [] then []
    else
      var last := entries[|entries| - 1];
      (if Matches(last, f) then [last] else []) + NewestFirst(entries[..|entries| - 1], f)
  }

  lemma NewestFirstStep(entries: seq<Entry>, i: nat, f: Filter)
    requires i < |entries|
    ensures NewestFirst(entries[..i + 1], f) ==
      if Matches(entries[i], f) then [entries[i]] + NewestFirst(entries[..i], f) else NewestFirst(entries[..i], f)
  {
    hide Matches;
    assert entries[..i + 1][..i] == entries[..i];
    assert [] + NewestFirst(entries[..i], f) == NewestFirst(entries[..i], f);
  }

  lemma NewestFirstOfNone(f: Filter)
    ensures NewestFirst([], f) == []
  {
  }

  lemma PageStartsInside(page: int, size: int)
    requires page >= 1 && size >= 1
    ensures (page - 1) * size >= 0
  {
  }

  function Min(a: int, b: int): int {
    if a < b then a else b
  }

  function Page(matched: seq<Entry>, page: int, size: int): seq<Entry>
    requires page >= 1 && size >= 1
  {
    var start := Min((page - 1) * size, |matched|);
    matched[start..Min(start + size, |matched|)]
  }

  /** The first n pages one after the other. */
  function Pages(matched: seq<Entry>, n: nat, size: int): seq<Entry>
    requires size >= 1
  {
    if n == 0 then [] else Pages(matched, n - 1, size) + Page(matched, n, size)
  }

  lemma {:induction false} PagesArePrefix(matched: seq<Entry>, n: nat, size: int)
    requires size >= 1
    ensures Pages(matched, n, size) == matched[..Min(n * size, |matched|)]
  {
    if n > 0 {
      PagesArePrefix(matched, n - 1, size);
      assert n * size == (n - 1) * size + size;
    }
  }

  lemma {:induction false} NewestFirstMembers(entries: seq<Entry>, f: Filter)
    ensures forall e :: e in NewestFirst(entries, f) <==> e in entries && Matches(e, f)
  {
    hide Matches;
    if entries != [] {
      var init, last := entries[..|entries| - 1], entries[|entries| - 1];
      NewestFirstMembers(init, f);
      assert entries == init + [last];
    }
  }

  predicate Descending(s: seq<Entry>) {
    forall i, j :: 0 <= i < j < |s| ==> s[i].id > s[j].id
  }

  lemma {:induction false} NewestFirstDescends(entries: seq<Entry>, f: Filter)
    requires forall i, j :: 0 <= i < j < |entries| ==> entries[i].id < entries[j].id
    ensures Descending(NewestFirst(entries, f))
  {
    hide Matches;
    if entries != [] {
      var init, last := entries[..|entries| - 1], entries[|entries| - 1];
      NewestFirstDescends(init, f);
      NewestFirstMembers(init, f);
      forall k | 0 <= k < |NewestFirst(init, f)|
        ensures NewestFirst(init, f)[k].id < last.id
      {
        assert NewestFirst(init, f)[k] in init;
      }
    }
  }

  /** The pages of a query, read one after the other until they cover the total, list
      every entry that matches, once, newest first, at most a page size at a time; the
      pages after that are empty. */
  lemma PagesListEveryMatchOnce(log: Log, f: Filter, n: nat)
    requires Ordered(log) && n * PageSizeFor(f) >= |NewestFirst(log.entries, f)|
    ensures var matched := NewestFirst(log.entries, f);
      var size := PageSizeFor(f);
      && (forall e :: e in Pages(matched, n, size) <==> e in log.entries && Matches(e, f))
      && Descending(Pages(matched, n, size))
      && forall k :: k >= 1 ==> |Page(matched, k, size)| <= size && (k > n ==> Page(matched, k, size) == [])
  {
    hide Matches, NewestFirst;
    var matched, size := NewestFirst(log.entries, f), PageSizeFor(f);
    NewestFirstMembers(log.entries, f);
    NewestFirstDescends(log.entries, f);
    PagesArePrefix(matched, n, size);
    assert matched[..|matched|] == matched;
    forall k | k >= 1
      ensures |Page(matched, k, size)| <= size && (k > n ==> Page(matched, k, size) == [])
    {
      PageBounds(matched, k, n, size);
    }
  }

  lemma PageBounds(matched: seq<Entry>, k: int, n: nat, size: int)
    requires k >= 1 && size >= 1 && n * size >= |matched|
    ensures |Page(matched, k, size)| <= size
    ensures k > n ==> Page(matched, k, size) == []
  {
    PageStartsInside(k, size);
    if k > n {
      PageStartsInside(k - n, size);
      assert (k - 1) * size == n * size + (k - n - 1) * size;
    }

  }
}
