/** The statistics recorder: counters, per-model and hourly rows, and the billing
    cycle, updated in place. Credits are modelled as reals. */
module StatsRecorder {
  import opened BillingCycle

  /** A per-model or hourly row. */
  datatype Row = Row(total: int, success: int, failed: int, billed: int, credits: real)

  const EMPTY_ROW := Row(0, 0, 0, 0, 0.0)

  type Rows = map<string, Row>

  datatype Usage = Usage(promptTokens: int, completionTokens: int, cachedTokens: int, credits: real, nonBillable: bool)

  datatype Data = Data(total: int, success: int, failed: int,
                       promptTokens: int, completionTokens: int, cachedTokens: int,
                       credits: real, billed: int, cycle: Cycle, byModel: Rows, hourly: Rows)

  function RowOf(rows: Rows, key: string): Row {
    if key in rows then rows[key] else EMPTY_ROW
  }

  function Counted(row: Row, ok: bool): Row {
    row.(total := row.total + 1, success := row.success + if ok then 1 else 0, failed := row.failed + if ok then 0
        else 1)
  }

  function Charged(row: Row, credits: real): Row {
    row.(billed := row.billed + 1, credits := row.credits + credits)
  }

  /** Recording one completed request. */
  function Recorded(d: Data, model: string, hour: string, ok: bool): Data {
    d.(total := d.total + 1, success := d.success + if ok then 1 else 0, failed := d.failed + if ok then 0 else 1,
       byModel := d.byModel[model := Counted(RowOf(d.byModel, model), ok)],
       hourly := d.hourly[hour := Counted(RowOf(d.hourly, hour), ok)])
  }

  /** Recording one usage frame: tokens always, credits only when billable. */
  function Used(zone: Zone, d: Data, model: string, hour: string, u: Usage, now: int): Data {
    var d := d.(promptTokens := d.promptTokens + u.promptTokens,
                completionTokens := d.completionTokens + u.completionTokens,
                cachedTokens := d.cachedTokens + u.cachedTokens);
    if u.nonBillable then d
    else
      var rolled := Roll(zone, d.cycle, now);
      d.(credits := d.credits + u.credits, billed := d.billed + 1,
         cycle := rolled.(credits := rolled.credits + u.credits),
         byModel := d.byModel[model := Charged(RowOf(d.byModel, model), u.credits)],
         hourly := d.hourly[hour := Charged(RowOf(d.hourly, hour), u.credits)])
  }

  class Recorder {
    var data: Data
    var dirty: bool
    const zone: Zone

    constructor (zone: Zone)
      ensures this.zone == zone && data == Data(0, 0, 0, 0, 0, 0, 0.0, 0, Cycle(0, 0, 0.0), map[], map[]) && !dirty
    {
      this.zone := zone;
      data := Data(0, 0, 0, 0, 0, 0, 0.0, 0, Cycle(0, 0, 0.0), map[], map[]);
      dirty := false;
    }

    /** Counts one completed request; hour is the key of the current hour. */
    method Record(model: string, hour: string, ok: bool)
      modifies this
      ensures data == Recorded(old(data), model, hour, ok) && dirty
    {
      dirty := true;
      data := data.(total := data.total + 1);
      if ok {
        data := data.(success := data.success + 1);
      } else {
        data := data.(failed := data.failed + 1);
      }
      var m := RowOf(data.byModel, model);
      m := m.(total := m.total + 1);
      if ok {
        m := m.(success := m.success + 1);
      } else {
        m := m.(failed := m.failed + 1);
      }
      data := data.(byModel := data.byModel[model := m]);
      var h := RowOf(data.hourly, hour);
      h := h.(total := h.total + 1);
      if ok {
        h := h.(success := h.success + 1);
      } else {
        h := h.(failed := h.failed + 1);
      }
      data := data.(hourly := data.hourly[hour := h]);
    }

    /** Adds one usage frame read at the given clock, which falls in the given hour. */
    method RecordUsage(model: string, hour: string, u: Usage, now: int)
      modifies this
      ensures data == Used(zone, old(data), model, hour, u, now) && dirty
    {
      dirty := true;
      data := data.(promptTokens := data.promptTokens + u.promptTokens);
      data := data.(completionTokens := data.completionTokens + u.completionTokens);
      data := data.(cachedTokens := data.cachedTokens + u.cachedTokens);
      if u.nonBillable {
        return;
      }
      data := data.(credits := data.credits + u.credits, billed := data.billed + 1);
      var rolled := RollCycle(now);
      data := data.(cycle := data.cycle.(credits := data.cycle.credits + u.credits));
      var m := RowOf(data.byModel, model);
      data := data.(byModel := data.byModel[model := m.(billed := m.billed + 1, credits := m.credits + u.credits)]);
      var h := RowOf(data.hourly, hour);
      data := data.(hourly := data.hourly[hour := h.(billed := h.billed + 1, credits := h.credits + u.credits)]);
    }

    /** Advances the tracked boundary past the clock; rolled says whether anything changed. */
    method RollCycle(now: int) returns (rolled: bool)
      modifies this`data
      ensures data == old(data).(cycle := Roll(zone, old(data).cycle, now))
      ensures rolled <==> data != old(data)
    {
      rolled := false;
      var i := 0;
      while data.cycle.next > 0 && now >= data.cycle.next && i < MAX_CATCH_UPS
        invariant 0 <= i <= MAX_CATCH_UPS
        invariant data == old(data).(cycle := data.cycle)
        invariant CatchUp(zone, data.cycle, now, i) == CatchUp(zone, old(data).cycle, now, 0)
        invariant if i == 0 then !rolled && data == old(data) else rolled && Due(old(data).cycle, now)
        decreases MAX_CATCH_UPS - i
      {
        var current := data.cycle.next;
        data := data.(cycle := data.cycle.(start := current, credits := 0.0));
        rolled := true;
        var adv := Advance(zone, current);
        if adv == 0 {
          data := data.(cycle := data.cycle.(next := 0));
          RollSettles(zone, old(data).cycle, now);
          return true;
        }
        data := data.(cycle := data.cycle.(next := adv));
        i := i + 1;
      }
      RollSettles(zone, old(data).cycle, now);
      if data.cycle.next > 0 && now >= data.cycle.next {
        data := data.(cycle := data.cycle.(next := 0));
        return true;
      }
    }

    /** What a read at the clock reports: exactly the cycle the next roll would store,
        and the recorder is left alone. */
    method ProjectCycle(now: int) returns (credits: real, start: int, next: int)
      ensures Cycle(next, start, credits) == Roll(zone, data.cycle, now)
    {
      credits, start, next := data.cycle.credits, data.cycle.start, data.cycle.next;
      var i := 0;
      while next > 0 && now >= next && i < MAX_CATCH_UPS
        invariant 0 <= i <= MAX_CATCH_UPS
        invariant CatchUp(zone, Cycle(next, start, credits), now, i) == CatchUp(zone, data.cycle, now, 0)
        decreases MAX_CATCH_UPS - i
      {
        start := next;
        credits := 0.0;
        var adv := Advance(zone, next);
        if adv == 0 {
          next := 0;
          break;
        }
        next := adv;
        i := i + 1;
      }
      if next > 0 && now >= next {
        next := 0;
      }
    }

    /** Takes over a reported boundary. */
    method SetBillingCycleAt(reset: int, now: int)
      modifies this
      ensures data == old(data).(cycle := Reported(zone, old(data).cycle, reset, now))
      ensures data != old(data) || old(dirty) ==> dirty
      ensures dirty <==>
                old(dirty) || (reset > 0 && (Due(old(data).cycle, now) || data.cycle.next != old(data).cycle.next))
    {
      if reset <= 0 {
        return;
      }
      var rolled := RollCycle(now);
      if rolled {
        dirty := true;
      }
      if data.cycle.next == reset {
        return;
      }
      if Plausible(data.cycle.next) && reset <= data.cycle.next {
        return;
      }
      RollSettles(zone, old(data).cycle, now);
      if data.cycle.next != 0 && reset - data.cycle.next >= DRIFT_TOLERANCE_MS {
        data := data.(cycle := data.cycle.(credits := 0.0));
      }
      data := data.(cycle := data.cycle.(next := reset, start := zone(reset, -1)));
      dirty := true;
    }
  }
}
