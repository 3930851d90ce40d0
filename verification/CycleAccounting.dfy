/** Conservation over whole runs of the recorder, from empty. */
module CycleAccounting {
  import opened BillingCycle
  import opened StatsRecorder

  datatype Event =
    | Completed(model: string, hour: string, ok: bool)
    | Spent(model: string, hour: string, usage: Usage, now: int)
    | ResetReported(reset: int, now: int)

  function After(zone: Zone, d: Data, e: Event): Data {
    match e
    case Completed(model, hour, ok) => Recorded(d, model, hour, ok)
    case Spent(model, hour, u, now) => Used(zone, d, model, hour, u, now)
    case ResetReported(reset, now) => d.(cycle := Reported(zone, d.cycle, reset, now))
  }

  const EMPTY := Data(0, 0, 0, 0, 0, 0, 0.0, 0, Cycle(0, 0, 0.0), map[], map[])

  /** The recorder's data after the first n events. */
  function RunTo(zone: Zone, events: seq<Event>, n: nat): Data
    requires n <= |events|
  {
    if n == 0 then EMPTY else After(zone, RunTo(zone, events, n - 1), events[n - 1])
  }

  // ---- Rows ----

  /** What a row counts, and what the recorder counts globally. */
  datatype Measure = Credits | Billed | Total | Success | Failed

  function Value(m: Measure, row: Row): real {
    match m
    case Credits => row.credits
    case Billed => row.billed as real
    case Total => row.total as real
    case Success => row.success as real
    case Failed => row.failed as real
  }

  function Global(m: Measure, d: Data): real {
    match m
    case Credits => d.credits
    case Billed => d.billed as real
    case Total => d.total as real
    case Success => d.success as real
    case Failed => d.failed as real
  }

  ghost function SumRows(rows: Rows, m: Measure): real
    decreases |rows|
  {
    if rows == map[] then 0.0
    else
      var k :| k in rows;
      RemovalShrinks(rows, k);
      Value(m, rows[k]) + SumRows(rows - {k}, m)
  }

  lemma RemovalShrinks(rows: Rows, k: string)
    requires k in rows
    ensures |rows - {k}| < |rows|
  {
    assert rows.Keys == (rows - {k}).Keys + {k};
    assert |rows| == |rows.Keys| && |rows - {k}| == |(rows - {k}).Keys|;
  }

  /** The sum does not depend on the order in which rows are taken. */
  lemma {:induction false} SumRowsRemove(rows: Rows, m: Measure, k: string)
    requires k in rows
    ensures SumRows(rows, m) == Value(m, rows[k]) + SumRows(rows - {k}, m)
    decreases |rows|
  {
    var first :| first in rows && SumRows(rows, m) == Value(m, rows[first]) + SumRows(rows - {first}, m);
    if first != k {
      RemovalShrinks(rows, first);
      RemovalShrinks(rows, k);
      SumRowsRemove(rows - {first}, m, k);
      SumRowsRemove(rows - {k}, m, first);
      assert rows - {first} - {k} == rows - {k} - {first};
    }
  }

  lemma SumRowsUpdate(rows: Rows, m: Measure, k: string, row: Row)
    ensures SumRows(rows[k := row], m) == SumRows(rows, m) - Value(m, RowOf(rows, k)) + Value(m, row)
  {
    SumRowsRemove(rows[k := row], m, k);
    if k in rows {
      SumRowsRemove(rows, m, k);
      assert rows[k := row] - {k} == rows - {k};
    } else {
      assert rows[k := row] - {k} == rows;
    }
  }

  /** The rows add up to the global counters. */
  ghost predicate RowsAddUp(rows: Rows, d: Data) {
    forall m: Measure :: SumRows(rows, m) == Global(m, d)
  }

  /** A row and the global counters that grow by the same amounts stay in step. */
  lemma GrowTogether(rows: Rows, d: Data, k: string, row: Row, d': Data)
    requires RowsAddUp(rows, d)
    requires forall m: Measure :: Global(m, d') - Global(m, d) == Value(m, row) - Value(m, RowOf(rows, k))
    ensures RowsAddUp(rows[k := row], d')
  {
    forall m: Measure
      ensures SumRows(rows[k := row], m) == Global(m, d')
    {
      SumRowsUpdate(rows, m, k, row);
      assert SumRows(rows, m) == Global(m, d);
    }
  }

  lemma EventKeepsRows(zone: Zone, d: Data, e: Event)
    requires RowsAddUp(d.byModel, d) && RowsAddUp(d.hourly, d) && d.total == d.success + d.failed
    ensures var d' := After(zone, d, e);
            RowsAddUp(d'.byModel, d') && RowsAddUp(d'.hourly, d') && d'.total == d'.success + d'.failed
  {
    hide SumRows, Reported, Roll;
    var d' := After(zone, d, e);
    match e
    case Completed(model, hour, ok) =>
      GrowTogether(d.byModel, d, model, Counted(RowOf(d.byModel, model), ok), d');
      GrowTogether(d.hourly, d, hour, Counted(RowOf(d.hourly, hour), ok), d');
    case Spent(model, hour, u, now) =>
      if u.nonBillable {
        assert forall m: Measure :: SumRows(d.byModel, m) == Global(m, d) && SumRows(d.hourly, m) == Global(m, d);
        assert forall m: Measure :: Global(m, d') == Global(m, d);
      } else {
        GrowTogether(d.byModel, d, model, Charged(RowOf(d.byModel, model), u.credits), d');
        GrowTogether(d.hourly, d, hour, Charged(RowOf(d.hourly, hour), u.credits), d');
      }
    case ResetReported(reset, now) =>
      assert forall m: Measure :: SumRows(d.byModel, m) == Global(m, d) && SumRows(d.hourly, m) == Global(m, d);
      assert forall m: Measure :: Global(m, d') == Global(m, d);
  }

  /** In every run the per-model rows and the hourly rows each sum to the global counters. */
  lemma {:induction false} RowsAlwaysAddUp(zone: Zone, events: seq<Event>, n: nat)
    requires n <= |events|
    ensures var d := RunTo(zone, events, n);
            RowsAddUp(d.byModel, d) && RowsAddUp(d.hourly, d) && d.total == d.success + d.failed
  {
    hide After;
    if n > 0 {
      RowsAlwaysAddUp(zone, events, n - 1);
      EventKeepsRows(zone, RunTo(zone, events, n - 1), events[n - 1]);
    }
  }

  // ---- The cycle ----

  /** Whether an event starts a new cycle: a due boundary is rolled over, or a report
      moves the boundary by at least the tolerance. */
  predicate Zeroes(zone: Zone, c: Cycle, e: Event) {
    match e
    case Completed(_, _, _) => false
    case Spent(_, _, u, now) => !u.nonBillable && Due(c, now)
    case ResetReported(reset, now) =>
      var tracked := Roll(zone, c, now).next;
      reset > 0 && (Due(c, now) ||
                    (reset != tracked && !(Plausible(tracked) && reset <= tracked) && tracked != 0 &&
                        reset - tracked >= DRIFT_TOLERANCE_MS))
  }

  function Billable(e: Event): real {
    if e.Spent? && !e.usage.nonBillable then e.usage.credits else 0.0
  }

  /** The billable credits of the events from..to. */
  function BilledIn(events: seq<Event>, from: nat, to: nat): real
    requires from <= to <= |events|
  {
    if from == to then 0.0 else BilledIn(events, from, to - 1) + Billable(events[to - 1])
  }

  /** The event among the first n that started the current cycle (0 if none did). */
  function CycleBegan(zone: Zone, events: seq<Event>, n: nat): (m: nat)
    requires n <= |events|
    ensures m <= n
  {
    if n == 0 then 0
    else if Zeroes(zone, RunTo(zone, events, n - 1).cycle, events[n - 1]) then n - 1
    else CycleBegan(zone, events, n - 1)
  }

  lemma EventSpends(zone: Zone, d: Data, e: Event)
    ensures After(zone, d, e).credits == d.credits + Billable(e)
    ensures After(zone, d, e).cycle.credits == (if Zeroes(zone, d.cycle, e) then 0.0 else d.cycle.credits) + Billable(e)
  {
    match e
    case Completed(model, hour, ok) =>
    case Spent(model, hour, u, now) => RollSettles(zone, d.cycle, now);
    case ResetReported(reset, now) => RollSettles(zone, d.cycle, now);
  }

  /** In every run the lifetime credits are all the billable credits, and the cycle
      credits are exactly the billable credits since the last zeroing. */
  lemma {:induction false} CycleCreditsAreSpendSinceZeroing(zone: Zone, events: seq<Event>, n: nat)
    requires n <= |events|
    ensures RunTo(zone, events, n).credits == BilledIn(events, 0, n)
    ensures RunTo(zone, events, n).cycle.credits == BilledIn(events, CycleBegan(zone, events, n), n)
  {
    hide After, Zeroes;
    if n > 0 {
      CycleCreditsAreSpendSinceZeroing(zone, events, n - 1);
      EventSpends(zone, RunTo(zone, events, n - 1), events[n - 1]);
    }
  }

  lemma {:induction false} BilledSplits(events: seq<Event>, mid: nat, to: nat)
    requires mid <= to <= |events|
    requires forall i :: 0 <= i < |events| ==> Billable(events[i]) >= 0.0
    ensures BilledIn(events, 0, to) == BilledIn(events, 0, mid) + BilledIn(events, mid, to)
    ensures BilledIn(events, mid, to) >= 0.0
  {
    if mid < to {
      BilledSplits(events, mid, to - 1);
    }
  }

  /** With non-negative credits, 0 <= cycle credits <= lifetime credits in every run. */
  lemma CycleCreditsBounded(zone: Zone, events: seq<Event>, n: nat)
    requires n <= |events| && forall i :: 0 <= i < |events| ==> Billable(events[i]) >= 0.0
    ensures 0.0 <= RunTo(zone, events, n).cycle.credits <= RunTo(zone, events, n).credits
  {
    CycleCreditsAreSpendSinceZeroing(zone, events, n);
    var m := CycleBegan(zone, events, n);
    BilledSplits(events, m, n);
    BilledSplits(events, 0, m);
  }

  // ---- Every row and every token total, event by event ----

  predicate IsBillable(e: Event) {
    e.Spent? && !e.usage.nonBillable
  }

  /** What one event adds to a measure. */
  function Adds(e: Event, m: Measure): real {
    match m
    case Credits => if IsBillable(e) then e.usage.credits else 0.0
    case Billed => if IsBillable(e) then 1.0 else 0.0
    case Total => if e.Completed? then 1.0 else 0.0
    case Success => if e.Completed? && e.ok then 1.0 else 0.0
    case Failed => if e.Completed? && !e.ok then 1.0 else 0.0
  }

  /** What the wanted ones of the first n events add up to. */
  function Added(events: seq<Event>, n: nat, m: Measure, wanted: Event -> bool): real
    requires n <= |events|
  {
    if n == 0 then 0.0
    else Added(events, n - 1, m, wanted) + if wanted(events[n - 1]) then Adds(events[n - 1], m) else 0.0
  }

  function OfModel(model: string): Event -> bool {
    (e: Event) => !e.ResetReported? && e.model == model
  }

  function OfHour(hour: string): Event -> bool {
    (e: Event) => !e.ResetReported? && e.hour == hour
  }

  function Any(): Event -> bool {
    e => true
  }

  lemma EventChargesItsRows(zone: Zone, d: Data, e: Event, m: Measure, key: string)
    ensures var d' := After(zone, d, e);
            var ofModel := if OfModel(key)(e) then Adds(e, m) else 0.0;
            var ofHour := if OfHour(key)(e) then Adds(e, m) else 0.0;
            && Value(m, RowOf(d'.byModel, key)) == Value(m, RowOf(d.byModel, key)) + ofModel
            && Value(m, RowOf(d'.hourly, key)) == Value(m, RowOf(d.hourly, key)) + ofHour
            && Global(m, d') == Global(m, d) + Adds(e, m)
  {
    hide Roll, Reported;
  }

  /** In every run the row of a model holds exactly what the events of that model add, the
      row of an hour exactly what those of that hour add, and the global counters what
      all of them add, for each of credits, billed, total, success and failed. */
  lemma {:induction false} EveryRowIsItsEvents(zone: Zone, events: seq<Event>, n: nat, m: Measure, key: string)
    requires n <= |events|
    ensures var d := RunTo(zone, events, n);
            && Value(m, RowOf(d.byModel, key)) == Added(events, n, m, OfModel(key))
            && Value(m, RowOf(d.hourly, key)) == Added(events, n, m, OfHour(key))
            && Global(m, d) == Added(events, n, m, Any())
  {
    hide After, Adds, Value, Global, OfModel, OfHour;
    if n == 0 {
      NothingAdded(m, key);
    } else {
      EveryRowIsItsEvents(zone, events, n - 1, m, key);
      EventChargesItsRows(zone, RunTo(zone, events, n - 1), events[n - 1], m, key);
    }
  }

  lemma NothingAdded(m: Measure, key: string)
    ensures Value(m, RowOf(EMPTY.byModel, key)) == 0.0 && Value(m, RowOf(EMPTY.hourly, key)) == 0.0
    ensures Global(m, EMPTY) == 0.0
  {
  }

  datatype TokenKind = Prompt | Completion | Cached

  function TokensOf(u: Usage, kind: TokenKind): int {
    match kind
    case Prompt => u.promptTokens
    case Completion => u.completionTokens
    case Cached => u.cachedTokens
  }

  function TokenTotal(d: Data, kind: TokenKind): int {
    match kind
    case Prompt => d.promptTokens
    case Completion => d.completionTokens
    case Cached => d.cachedTokens
  }

  function TokensIn(events: seq<Event>, n: nat, kind: TokenKind): int
    requires n <= |events|
  {
    if n == 0 then 0
    else TokensIn(events, n - 1, kind) + if events[n - 1].Spent? then TokensOf(events[n - 1].usage, kind) else 0
  }

  /** In every run each token total is the sum over all usage frames, billable or not. */
  lemma {:induction false} TokensAreAllFrames(zone: Zone, events: seq<Event>, n: nat, kind: TokenKind)
    requires n <= |events|
    ensures TokenTotal(RunTo(zone, events, n), kind) == TokensIn(events, n, kind)
  {
    hide Roll, Reported;
    if n > 0 {
      TokensAreAllFrames(zone, events, n - 1, kind);
    }
  }
}
