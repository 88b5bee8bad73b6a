/**
  The other side of metering: what a pass must bill, in the row's own figures, and
  that passes in time bill all of the time a deployment was READY.
 */
module MeterBills {
  import opened Common
  import opened Metering
  import opened MeterRuns

  // --- One pass --------------------------------------------------------------------------

  /** A pass bills the time since the last one, at most an hour of it and nothing from
      before the stamp; a minute if nobody measured it. The rate is the row's own, or the
      legacy ten cents, for each GPU of each instance. */
  lemma PassBills(row: Row, balance: Option<int>, elapsed: Option<real>, silent: bool, now: real)
    ensures var r := Charge(row, balance, CycleSeconds(elapsed), silent, now).row;
            var gap := if elapsed.None? then 60.0
                       else if elapsed.value < 0.0 then 0.0
                       else if elapsed.value > 3600.0 then 3600.0 else elapsed.value;
            var seconds := if row.since.None? || gap <= now - row.since.value then gap
                           else if now < row.since.value then 0.0 else now - row.since.value;
            var cents := if row.rateCents == 0 then 10 else row.rateCents;
            var instances := if row.readyInstances == 0 then 1 else row.readyInstances;
            if row.owner.None? || row.kind == CatalogModel || silent then r == row
            else if row.since.None? && row.kind == PrivateModel then r == row.(since := Some(now))
            else
              && r.since == row.since
              && r.books.stretches ==
                 row.books.stretches + [Stretch(cents * 1000 * row.gpus * instances, seconds)]
  {
    ChargeShape(row, balance, CycleSeconds(elapsed), silent, now);
    hide AccrueRow, Take;
  }

  /** Every row is metered at its turn, whatever is left of its owner's balance by then. */
  lemma {:induction false} MeteredInTurn(w: World, ids: seq<string>, cycle: real, silent: set<string>, d: string)
    returns (balance: Option<int>)
    requires cycle >= 0.0 && Distinct(ids) && d in w.rows
    ensures var m := MeterAll(w, ids, cycle, silent);
            && m.now == w.now && m.rows.Keys == w.rows.Keys
            && m.rows[d] == if d in ids then Charge(w.rows[d], balance, cycle, d in silent, w.now).row else w.rows[d]
  {
    hide Charge, MeterOne;
    balance := None;
    if ids != [] {
      var front, e := ids[..|ids| - 1], ids[|ids| - 1];
      balance := MeteredInTurn(w, front, cycle, silent, d);
      assert ids == front + [e] && e !in front;
      var m := MeterAll(w, front, cycle, silent);
      if e in m.rows {
        MeterOneRows(m, e, cycle, silent);
        if e == d {
          balance := BalanceOf(m, m.rows[d].owner);
        }
      } else {
        NotThere(m, e, cycle, silent);
      }
    }
  }

  lemma NotThere(m: World, e: string, cycle: real, silent: set<string>)
    requires cycle >= 0.0 && e !in m.rows
    ensures MeterOne(m, e, cycle, silent) == m
  {
  }

  // --- Whole runs --------------------------------------------------------------------------

  /** What this step should add to the deployment's bill. */
  function Billed(w: World, step: Step, d: string): seq<Stretch> {
    if !step.Pass? || !PassPossible(w, step.elapsed, step.ids) || d !in step.ids || d in step.silent then []
    else
      var row := w.rows[d];
      var gap := if step.elapsed.None? then 60.0
                 else if step.elapsed.value < 0.0 then 0.0
                 else if step.elapsed.value > 3600.0 then 3600.0 else step.elapsed.value;
      if row.owner.None? || row.kind == CatalogModel || (row.since.None? && row.kind == PrivateModel) then []
      else
        [Stretch((if row.rateCents == 0 then 10 else row.rateCents) * 1000 * row.gpus *
                   (if row.readyInstances == 0 then 1 else row.readyInstances),
                 if row.since.None? || gap <= w.now - row.since.value then gap
                 else if w.now < row.since.value then 0.0 else w.now - row.since.value)]
  }

  function Bill(w: World, steps: seq<Step>, d: string): seq<Stretch> {
    if steps == [] then []
    else
      var front := steps[..|steps| - 1];
      Bill(w, front, d) + Billed(Run(w, front), steps[|steps| - 1], d)
  }

  lemma StepBills(w: World, step: Step, d: string)
    requires d in w.rows
    ensures var t := Apply(w, step);
            d in t.rows && t.rows[d].books.stretches == w.rows[d].books.stretches + Billed(w, step, d)
  {
    if step.Pass? {
      if PassPossible(w, step.elapsed, step.ids) {
        var balance := PassLeaves(w, step, d);
        PassBills(w.rows[d], balance, step.elapsed, d in step.silent, w.now);
        hide Apply, Charge, CycleSeconds;
      }
    } else {
      hide MeterAll;
    }
  }

  /** Over every run: a deployment's bill is what its passes should have added to it, and
      nothing else. */
  lemma {:induction false} BillIs(w: World, steps: seq<Step>, d: string)
    requires d in w.rows
    ensures d in Run(w, steps).rows
    ensures Run(w, steps).rows[d].books.stretches == w.rows[d].books.stretches + Bill(w, steps, d)
  {
    if steps != [] {
      BillIs(w, steps[..|steps| - 1], d);
      hide Apply, Billed;
      StepBills(Run(w, steps[..|steps| - 1]), steps[|steps| - 1], d);
    }
  }

  // --- Everything that ran -------------------------------------------------------------------

  /** Passes measure the time since the last one, an hour at most, and find the deployment
      if it is READY, stamped when that was saved; it stops only straight after a pass. */
  predicate Attended(w: World, step: Step, d: string) {
    d in w.rows &&
      (step.Pass? ==>
         && step.elapsed == Some(w.now - w.lastPass) && w.now - w.lastPass <= 3600.0
         && PassPossible(w, step.elapsed, step.ids) && d !in step.silent
         && (w.rows[d].ready ==> d in step.ids && w.rows[d].since == Some(w.rows[d].savedAt))) &&
      (step == LeaveReady(d) && w.rows[d].ready ==> w.now == w.lastPass)
  }

  predicate AllBilled(w: World, d: string) {
    && w.lastPass <= w.now && d in w.rows
    && var row := w.rows[d];
       && row.owner.Some? && row.kind != CatalogModel
       && Seconds(row.books.stretches) == row.books.ranAtPass
       && (if row.ready
           then row.savedAt <= w.now && row.books.ran - row.books.ranAtPass == w.now - MaxR(w.lastPass, row.savedAt)
           else row.books.ran == row.books.ranAtPass)
  }

  lemma ChargeBillsAll(row: Row, balance: Option<int>, cycle: real, now: real, lastPass: real)
    requires row.ready && row.since == Some(row.savedAt) && row.savedAt <= now && 0.0 <= cycle == now - lastPass
    requires row.owner.Some? && row.kind != CatalogModel
    ensures var r := Charge(row, balance, cycle, false, now).row;
            && Seconds(r.books.stretches) == Seconds(row.books.stretches) + now - MaxR(lastPass, row.savedAt)
            && r.owner == row.owner && r.kind == row.kind && r.books.ran == row.books.ran && r.savedAt == row.savedAt
  {
    ChargeShape(row, balance, cycle, false, now);
    SameOwner(row, balance, cycle, false, now);
    var seconds := BilledSeconds(row, cycle, now);
    CostSnoc(row.books.stretches, Stretch(MilliCentsPerHour(row), seconds));
    assert seconds == now - MaxR(lastPass, row.savedAt);
    hide Charge, Seconds, Cost, BilledSeconds, MilliCentsPerHour;
  }

  /** A pass meters a row or not, and marks it. */
  lemma PassLeaves(w: World, step: Step, d: string) returns (balance: Option<int>)
    requires step.Pass? && PassPossible(w, step.elapsed, step.ids) && d in w.rows
    ensures var t, row := Apply(w, step), w.rows[d];
            && t.now == w.now == t.lastPass && d in t.rows
            && t.rows[d] == Marked(if d in step.ids
                                   then Charge(row, balance, CycleSeconds(step.elapsed), d in step.silent, w.now).row
                                   else row)
  {
    balance := MeteredInTurn(w, step.ids, CycleSeconds(step.elapsed), step.silent, d);
    hide Charge, MeterAll, CycleSeconds;
  }

  lemma PassBillsAll(w: World, step: Step, d: string)
    requires step.Pass? && AllBilled(w, d) && Attended(w, step, d)
    ensures AllBilled(Apply(w, step), d)
  {
    var row, cycle := w.rows[d], CycleSeconds(step.elapsed);
    assert cycle == w.now - w.lastPass;
    var balance := PassLeaves(w, step, d);
    hide Apply, CycleSeconds;
    if d in step.ids {
      assert row.ready;
      ChargeBillsAll(row, balance, cycle, w.now, w.lastPass);
    }
    hide Charge, Seconds;
  }

  lemma SameOwner(row: Row, balance: Option<int>, cycle: real, silent: bool, now: real)
    requires cycle >= 0.0
    ensures Charge(row, balance, cycle, silent, now).row.owner == row.owner
  {
    hide BilledSeconds, AccrueRow, Take;
  }

  lemma StepBillsAll(w: World, step: Step, d: string)
    requires AllBilled(w, d) && Attended(w, step, d)
    ensures AllBilled(Apply(w, step), d)
  {
    if step.Pass? {
      PassBillsAll(w, step, d);
    } else {
      hide MeterAll, Seconds;
    }
  }

  /** Over every such run, from a fresh start: the seconds billed are the seconds READY up
      to the last pass, no fewer and no more. */
  lemma {:induction false} BilledAllItRan(w: World, steps: seq<Step>, d: string)
    requires Initial(w) && d in w.rows && w.rows[d].owner.Some? && w.rows[d].kind != CatalogModel
    requires forall k :: 0 <= k < |steps| ==> Attended(Run(w, steps[..k]), steps[k], d)
    ensures AllBilled(Run(w, steps), d)
    ensures Seconds(Run(w, steps).rows[d].books.stretches) == Run(w, steps).rows[d].books.ranAtPass
  {
    if steps != [] {
      var init := steps[..|steps| - 1];
      assert forall k :: 0 <= k < |init| ==> init[..k] == steps[..k];
      BilledAllItRan(w, init, d);
      hide Apply, Attended, AllBilled, Initial;
      StepBillsAll(Run(w, init), steps[|steps| - 1], d);
    }
    BilledMeans(Run(w, steps), d);
  }

  lemma BilledMeans(w: World, d: string)
    requires AllBilled(w, d)
    ensures d in w.rows && Seconds(w.rows[d].books.stretches) == w.rows[d].books.ranAtPass
  {
  }
}
