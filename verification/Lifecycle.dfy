/**
  A deployment's life: the transition table, what a status report does to the row,
  the direct writes around it, the suspension clock, and the reaper that ends
  suspended rentals. Times are seconds.
 */
module Lifecycle {
  import opened Common

  datatype DState = Pending | Scheduled | Pulling | Starting | Ready | Draining | Suspended | Failed | Terminated

  function AllowedFrom(current: DState): set<DState> {
    match current
    case Pending => {Scheduled, Failed, Terminated}
    case Scheduled => {Pulling, Starting, Ready, Failed, Terminated}
    case Pulling => {Starting, Ready, Failed, Terminated}
    case Starting => {Ready, Failed, Terminated}
    case Ready => {Draining, Suspended, Failed, Terminated}
    case Draining => {Terminated, Failed}
    case Suspended => {Pulling, Starting, Ready, Terminated}
    case Failed => {Pending, Terminated}
    case Terminated => {}
  }

  /** None is InvalidDeploymentTransition. */
  function Transition(current: DState, desired: DState): Option<DState> {
    if desired == current || desired in AllowedFrom(current) then Some(desired) else None
  }

  /** How far a start has come, and the ways out. */
  function Stage(s: DState): nat {
    match s
    case Pending => 0 case Scheduled => 1 case Pulling => 2 case Starting => 3 case Ready => 4
    case Draining => 5 case Suspended => 6 case Failed => 7 case Terminated => 8
  }

  /** The table, entry by entry: a placed deployment goes on to any later stage up to
      READY, READY drains or pauses, a pause goes back to any stage after placement;
      everything can be terminated, and fail unless it is paused; only a failure can
      wait again. */
  lemma TransitionIs(a: DState, b: DState)
    ensures Transition(a, b) ==
            if || a == b
               || (a == Pending && b == Scheduled)
               || (1 <= Stage(a) < Stage(b) <= 4)
               || (a == Ready && (b == Draining || b == Suspended))
               || (a == Suspended && 2 <= Stage(b) <= 4)
               || (b == Terminated)
               || (b == Failed && a != Suspended && a != Terminated)
               || (a == Failed && b == Pending)
            then Some(b) else None
  {
  }

  datatype Deployment = Deployment(
    state: DState,
    readyInstances: nat,
    lastError: Option<string>,
    readyAt: Option<int>,
    billableSince: Option<int>,
    suspendedAt: Option<int>,
    suspendedReason: Option<string>,
    saveOnExhaustion: bool,
    rental: bool)            // a pod or VM, as opposed to a model

  datatype Report = Report(
    state: DState, observedAt: int, readyInstances: nat, error: Option<string>, suspendedReason: Option<string>)

  datatype Outcome =
    | NotFound
    | Ignored                       // late report for a row that has ended
    | Refused                       // illegal transition out of a live state
    | Saved(row: Deployment)

  predicate Given(text: Option<string>) { text.Some? && text.value != "" }

  /** update_deployment_status on one row; `now` is the control plane's clock. */
  function Apply(d: Deployment, r: Report, now: int): Outcome {
    if d.state == Terminated || d.state == Failed then Ignored
    else if Transition(d.state, r.state).None? then Refused
    else
      Saved(d.(
        state := r.state,
        readyInstances := if r.state == Ready then r.readyInstances else 0,
        lastError := if r.state == Suspended && r.error.None? && Given(d.lastError) then d.lastError else r.error,
        readyAt := if r.state == Ready && d.readyAt.None? then Some(now) else d.readyAt,
        billableSince := if r.state == Ready && d.state != Ready then Some(now) else d.billableSince,
        suspendedAt :=
          if r.state == Suspended then (if d.suspendedAt.None? then Some(r.observedAt) else d.suspendedAt)
          else if r.state in {Pulling, Starting, Ready} then None else d.suspendedAt,
        suspendedReason :=
          if r.state == Suspended then (if Given(r.suspendedReason) then r.suspendedReason else d.suspendedReason)
          else if r.state in {Pulling, Starting, Ready} then None else d.suspendedReason))
  }

  /** What a saved report makes of the row: READY starts the meter, ends the suspension
      and keeps the first time it was reached; SUSPENDED keeps its first clock, and a
      reason or text that the report does not give; starting ends the suspension too. */
  lemma SavedReportIs(d: Deployment, r: Report, now: int)
    requires Apply(d, r, now).Saved?
    ensures var row := Apply(d, r, now).row;
            && row.state == r.state && row.saveOnExhaustion == d.saveOnExhaustion && row.rental == d.rental
            && (r.state == Ready ==>
                  && row.readyInstances == r.readyInstances && row.suspendedAt.None? && row.suspendedReason.None?
                  && row.readyAt == (if d.readyAt.Some? then d.readyAt else Some(now))
                  && row.billableSince == (if d.state == Ready then d.billableSince else Some(now)))
            && (r.state != Ready ==>
                  row.readyInstances == 0 && row.readyAt == d.readyAt && row.billableSince == d.billableSince)
            && (r.state == Suspended ==>
                  && row.suspendedAt == (if d.suspendedAt.Some? then d.suspendedAt else Some(r.observedAt))
                  && row.suspendedReason ==
                       (if r.suspendedReason in {None, Some("")} then d.suspendedReason else r.suspendedReason)
                  && row.lastError == (if r.error.None? && d.lastError != Some("") then d.lastError else r.error))
            && (r.state != Suspended ==> row.lastError == r.error)
            && (r.state in {Pulling, Starting} ==> row.suspendedAt.None? && row.suspendedReason.None?)
            && (r.state in {Pending, Scheduled, Draining, Failed, Terminated} ==>
                  row.suspendedAt == d.suspendedAt && row.suspendedReason == d.suspendedReason)
  {
  }

  function Created(saveOnExhaustion: bool, rental: bool): Deployment {
    Deployment(Pending, 0, None, None, None, None, None, saveOnExhaustion, rental)
  }

  // --- Whole lives -----------------------------------------------------------------

  datatype Step =
    | Reported(report: Report, now: int)
    | Requeue(reason: string)        // requeue_deployment and _requeue_assignment
    | Schedule                       // _process_deployment_request found a node
    | Cleanup(reason: string)
    | Resume                         // the row stays suspended until it reports

  /** A row with what an onlooker remembers of its reports. */
  datatype Life = Life(row: Deployment, leftReadyAt: Option<int>, becameReadyAt: Option<int>)

  function Next(d: Deployment, step: Step): Deployment {
    match step
    case Reported(r, now) => var o := Apply(d, r, now); if o.Saved? then o.row else d
    case Requeue(reason) => d.(state := Pending, readyInstances := 0, lastError := Some(reason))
    case Schedule => if d.state == Pending then d.(state := Scheduled, lastError := None) else d
    case Cleanup(reason) => d.(state := Terminated, readyInstances := 0, lastError := Some(reason))
    case Resume => if d.state == Suspended then d.(lastError := None) else d
  }

  /** The writes around the reports: creation, which leaves all clocks unset; requeue and
      clean-up, which give a reason and leave no instance ready; placement, of a waiting row
      only; and resume, which only clears the text. None of them touches a clock. */
  lemma DirectWritesAre(d: Deployment, reason: string, save: bool, rental: bool)
    ensures Created(save, rental) == Deployment(Pending, 0, None, None, None, None, None, save, rental)
    ensures Next(d, Requeue(reason)) == d.(state := Pending, readyInstances := 0, lastError := Some(reason))
    ensures Next(d, Cleanup(reason)) == d.(state := Terminated, readyInstances := 0, lastError := Some(reason))
    ensures d.state == Pending ==> Next(d, Schedule) == d.(state := Scheduled, lastError := None)
    ensures d.state != Pending ==> Next(d, Schedule) == d
    ensures d.state == Suspended ==> Next(d, Resume) == d.(lastError := None)
    ensures d.state != Suspended ==> Next(d, Resume) == d
  {
  }

  /** The onlooker notes a report only when it makes the row leave or enter READY. */
  function Watch(l: Life, step: Step): Life {
    var row := Next(l.row, step);
    Life(row,
         if step.Reported? && l.row.state == Ready && row.state == Suspended
         then Some(step.report.observedAt) else l.leftReadyAt,
         if step.Reported? && l.row.state != Ready && row.state == Ready then Some(step.now) else l.becameReadyAt)
  }

  function Live(l: Life, steps: seq<Step>): Life {
    if steps == [] then l else Watch(Live(l, steps[..|steps| - 1]), steps[|steps| - 1])
  }

  /** READY carries no suspension clock; SUSPENDED carries the time of the report
      that left READY; the meter's start is when the row last became READY. */
  predicate ClocksRight(l: Life) {
    && (l.row.state == Ready ==> l.row.suspendedAt.None? && l.row.suspendedReason.None?)
    && (l.row.state == Suspended ==> l.row.suspendedAt.Some? && l.row.suspendedAt == l.leftReadyAt)
    && l.row.billableSince == l.becameReadyAt
    && (l.row.state in {Ready, Suspended} ==> l.row.billableSince.Some?)
    && (l.row.billableSince.Some? <==> l.row.readyAt.Some?)
  }

  /** From creation on, over every run of reports, requeues, placements, clean-ups
      and resumes, in any order. */
  lemma {:induction false} ClocksAlwaysRight(save: bool, rental: bool, steps: seq<Step>)
    ensures ClocksRight(Live(Life(Created(save, rental), None, None), steps))
  {
    if steps != [] {
      ClocksAlwaysRight(save, rental, steps[..|steps| - 1]);
    }
  }

  /** Suspended again and again, by whatever reports, the row keeps its first clock. */
  lemma {:induction false} ReReportsKeepTheClock(l: Life, reports: seq<Step>)
    requires l.row.state == Suspended && l.row.suspendedAt.Some?
    requires forall i :: 0 <= i < |reports| ==>
             reports[i].Resume? || (reports[i].Reported? && reports[i].report.state == Suspended)
    ensures Live(l, reports).row.state == Suspended
    ensures Live(l, reports).row.suspendedAt == l.row.suspendedAt
  {
    if reports != [] {
      ReReportsKeepTheClock(l, reports[..|reports| - 1]);
    }
  }

  /** Reports never bring an ended row back, never make a row wait for placement
      again, and pause it only from READY; a requeue alone does the first two. */
  lemma {:induction false} ReportsRespectTheTable(l: Life, reports: seq<Step>)
    requires forall i :: 0 <= i < |reports| ==> reports[i].Reported?
    ensures l.row.state in {Terminated, Failed} ==> Live(l, reports).row == l.row
    ensures Live(l, reports).row.state == Pending ==> l.row.state == Pending
    ensures Live(l, reports).row.state == Suspended ==>
              l.row.state == Suspended || Live(l, reports).leftReadyAt.Some?
    ensures l.leftReadyAt.Some? ==> Live(l, reports).leftReadyAt.Some?
  {
    if reports != [] {
      ReportsRespectTheTable(l, reports[..|reports| - 1]);
    }
  }

  // --- Reading and saving apart ------------------------------------------------------

  /** A call that has read the row, to save all of it later: after a step, or, renaming,
      as it was. */
  datatype Call = Call(read: Deployment, step: Option<Step>)

  datatype Table = Table(life: Life, calls: map<nat, Call>)

  datatype Move = Read(c: nat, step: Option<Step>) | Save(c: nat)

  /** Reports that are ignored or refused are not saved, nor are placements of a row
      that does not wait or resumptions of one that is not suspended. */
  predicate Saves(call: Call) {
    call.step.Some? ==>
      match call.step.value
      case Reported(r, now) => Apply(call.read, r, now).Saved?
      case Schedule => call.read.state == Pending
      case Resume => call.read.state == Suspended
      case _ => true
  }

  function Written(call: Call): Deployment { if call.step.Some? then Next(call.read, call.step.value) else call.read }

  predicate Pauses(call: Call) {
    call.step.Some? && call.step.value.Reported? && call.read.state == Ready && Written(call).state == Suspended
  }

  predicate Readies(call: Call) {
    call.step.Some? && call.step.value.Reported? && call.read.state != Ready && Written(call).state == Ready
  }

  /** A save writes the whole row but for the meter's start, which only a report that
      makes the row READY writes. */
  function Overwrite(l: Life, call: Call): Life {
    Life(Written(call).(billableSince := if Readies(call) then Some(call.step.value.now) else l.row.billableSince),
         if Pauses(call) then Some(call.step.value.report.observedAt) else l.leftReadyAt,
         if Readies(call) then Some(call.step.value.now) else l.becameReadyAt)
  }

  function Go(t: Table, m: Move): Table {
    match m
    case Read(c, step) => if c in t.calls then t else t.(calls := t.calls[c := Call(t.life.row, step)])
    case Save(c) =>
      if c !in t.calls then t
      else Table(if Saves(t.calls[c]) then Overwrite(t.life, t.calls[c]) else t.life, t.calls - {c})
  }

  function Moves(t: Table, ms: seq<Move>): Table {
    if ms == [] then t else Go(Moves(t, ms[..|ms| - 1]), ms[|ms| - 1])
  }

  /** What a row says of itself is consistent: ... */
  predicate RowRight(d: Deployment) {
    && (d.state == Ready ==> d.suspendedAt.None? && d.suspendedReason.None?)
    && (d.state == Suspended ==> d.suspendedAt.Some?)
    && (d.state in {Ready, Suspended} ==> d.readyAt.Some?)
  }

  /** ... in every interleaving, however late the saves. */
  lemma {:induction false} RowsAlwaysRight(save: bool, rental: bool, ms: seq<Move>)
    ensures var t := Moves(Table(Life(Created(save, rental), None, None), map[]), ms);
            RowRight(t.life.row) && forall c :: c in t.calls ==> RowRight(t.calls[c].read)
  {
    if ms != [] {
      var init := ms[..|ms| - 1];
      RowsAlwaysRight(save, rental, init);
      var t := Moves(Table(Life(Created(save, rental), None, None), map[]), init);
      forall c | c in t.calls ensures RowRight(Written(t.calls[c])) {
        WrittenRight(t.calls[c]);
      }
      hide Written, Pauses, Readies, Saves;
    }
  }

  lemma WrittenRight(call: Call)
    requires RowRight(call.read)
    ensures RowRight(Written(call))
  {
  }

  /** Since the call read it, the row has not become READY for the first time, and if it
      stays suspended it has not been suspended anew. */
  predicate Current(l: Life, call: Call) {
    && (Readies(call) || (call.read.readyAt.Some? <==> l.row.readyAt.Some?))
    && (Written(call).state == Suspended && !Pauses(call) ==> call.read.suspendedAt == l.leftReadyAt)
  }

  /** A save keeps the clocks right exactly when what it read is current in these two. */
  lemma SaveKeepsClocksIff(l: Life, call: Call)
    requires ClocksRight(l) && RowRight(call.read) && Saves(call)
    ensures ClocksRight(Overwrite(l, call)) <==> Current(l, call)
  {
  }

  /** In every interleaving whose saves are current the clocks are right throughout. */
  lemma {:induction false} ClocksRightIfCurrent(save: bool, rental: bool, ms: seq<Move>)
    requires var start := Table(Life(Created(save, rental), None, None), map[]);
             forall k :: 0 <= k < |ms| && ms[k].Save? && ms[k].c in Moves(start, ms[..k]).calls ==>
               Current(Moves(start, ms[..k]).life, Moves(start, ms[..k]).calls[ms[k].c])
    ensures ClocksRight(Moves(Table(Life(Created(save, rental), None, None), map[]), ms).life)
  {
    if ms != [] {
      var init, start := ms[..|ms| - 1], Table(Life(Created(save, rental), None, None), map[]);
      assert forall k :: 0 <= k < |init| ==> init[..k] == ms[..k];
      ClocksRightIfCurrent(save, rental, init);
      RowsAlwaysRight(save, rental, init);
      var t, m := Moves(start, init), ms[|ms| - 1];
      if m.Save? && m.c in t.calls && Saves(t.calls[m.c]) {
        hide ClocksRight, Current, Overwrite;
        SaveKeepsClocksIff(t.life, t.calls[m.c]);
      }
    }
  }

  /** A call with nobody between its read and its save is current, and does what the
      step does. */
  lemma UndisturbedIsCurrent(l: Life, step: Step)
    requires ClocksRight(l)
    ensures var call := Call(l.row, Some(step));
            if Saves(call) then Current(l, call) && Overwrite(l, call) == Watch(l, step) else Watch(l, step) == l
  {
  }

  /** A read and its save with nobody in between is the step, and a rename alone is none. */
  lemma ReadThenSaveIsStep(t: Table, c: nat, step: Option<Step>)
    requires c !in t.calls
    ensures var u := Go(Go(t, Read(c, step)), Save(c));
            u.calls == t.calls && u.life == if step.Some? then Watch(t.life, step.value) else t.life
  {
    assert t.calls[c := Call(t.life.row, step)] - {c} == t.calls;
  }

  /** A report that was ignored or refused, however late, saves nothing; a call in progress
      does not read again. */
  lemma RefusedSavesNothing(t: Table, c: nat, r: Report, now: int, step: Option<Step>)
    requires c in t.calls && t.calls[c].step == Some(Reported(r, now))
    ensures t.calls[c].read.state in {Failed, Terminated} || Transition(t.calls[c].read.state, r.state).None? ==>
              Go(t, Save(c)).life == t.life
    ensures Go(t, Read(c, step)) == t
  {
  }

  /** It can fail: a rename that read a row suspended at `first`, saved after the row was
      resumed at `ready` and suspended again at `second`, brings the first clock back. */
  lemma LateRenameBringsClockBack(d: Deployment, first: int, ready: int, second: int)
    requires d.state == Suspended && d.suspendedAt == Some(first) && first != second
    ensures var resumed := Watch(Life(d, Some(first), d.billableSince),
                                 Reported(Report(Ready, ready, 1, None, None), ready));
            var again := Watch(resumed, Reported(Report(Suspended, second, 0, None, None), second));
            && again.row.state == Suspended && again.row.suspendedAt == Some(second)
            && Overwrite(again, Call(d, None)).row.suspendedAt == Some(first)
            && !ClocksRight(Overwrite(again, Call(d, None)))
  {
  }

  // --- Suspended rentals -----------------------------------------------------------

  datatype Settings = Settings(
    storageBilling: bool, reaper: bool, graceMinutes: nat, retentionDays: nat, storageCentsPerDay: nat)

  /** What a suspended rental is told: cents per day, and when it is deleted. */
  function SuspensionTerms(d: Deployment, cfg: Settings): (nat, Option<int>) {
    if d.state != Suspended || d.suspendedAt.None? || !d.rental then (0, None)
    else
      (if d.saveOnExhaustion && cfg.storageBilling then cfg.storageCentsPerDay else 0,
       if cfg.reaper
       then Some(d.suspendedAt.value +
            (if d.saveOnExhaustion then cfg.retentionDays * 86400 else cfg.graceMinutes * 60))
       else None)
  }

  /** Only a suspended rental with a clock is charged and told a time: the daily rate if it
      is saved and that is billed; the retention if it is saved, else the grace, from its
      clock on, if there is a reaper. */
  lemma TermsAre(d: Deployment, cfg: Settings)
    ensures var (cents, deletesAt) := SuspensionTerms(d, cfg);
            var paused := d.state == Suspended && d.suspendedAt.Some? && d.rental;
            && (cents != 0 ==> cents == cfg.storageCentsPerDay)
            && (cfg.storageCentsPerDay != 0 ==>
                  (cents != 0 <==> paused && d.saveOnExhaustion && cfg.storageBilling))
            && (deletesAt.Some? <==> paused && cfg.reaper)
            && (deletesAt.Some? && d.saveOnExhaustion ==>
                  deletesAt.value - d.suspendedAt.value == 24 * 3600 * cfg.retentionDays)
            && (deletesAt.Some? && !d.saveOnExhaustion ==>
                  deletesAt.value - d.suspendedAt.value == 60 * cfg.graceMinutes)
  {
  }

  predicate DeletionDue(d: Deployment, cfg: Settings, now: int) {
    var deletesAt := SuspensionTerms(d, cfg).1;
    deletesAt.Some? && now >= deletesAt.value
  }

  class DeploymentTable {
    var rows: map<string, Deployment>

    constructor ()
      ensures rows == map[]
    {
      rows := map[];
    }

    method UpdateStatus(id: string, r: Report, now: int) returns (o: Outcome)
      modifies this
      ensures o == if id in old(rows) then Apply(old(rows)[id], r, now) else NotFound
      ensures rows == if o.Saved? then old(rows)[id := o.row] else old(rows)
      // Which reports are saved.
      ensures id in old(rows) ==>
                var a, b := old(rows)[id].state, r.state;
                && (o.Ignored? <==> a == Failed || a == Terminated)
                && (o.Saved? <==>
                      a != Failed && a != Terminated &&
                      (|| a == b || b == Terminated || (b == Failed && a != Suspended)
                       || (a == Pending && b == Scheduled) || (1 <= Stage(a) < Stage(b) <= 4)
                       || (a == Ready && (b == Draining || b == Suspended)) || (a == Suspended && 2 <= Stage(b) <= 4)))
    {
      if id !in rows {
        return NotFound;
      }
      var d := rows[id];
      if d.state == Terminated || d.state == Failed {
        return Ignored;
      }
      var becameReady := r.state == Ready && d.state != Ready;
      if Transition(d.state, r.state).None? {
        return Refused;
      }
      d := d.(state := r.state, readyInstances := if r.state == Ready then r.readyInstances else 0);
      if !(r.state == Suspended && r.error.None? && Given(d.lastError)) {
        d := d.(lastError := r.error);
      }
      if r.state == Ready && d.readyAt.None? {
        d := d.(readyAt := Some(now));
      }
      if r.state == Suspended {
        if d.suspendedAt.None? {
          d := d.(suspendedAt := Some(r.observedAt));
        }
        if Given(r.suspendedReason) {
          d := d.(suspendedReason := r.suspendedReason);
        }
      } else if r.state in {Pulling, Starting, Ready} {
        d := d.(suspendedAt := None, suspendedReason := None);
      }
      if becameReady {
        d := d.(billableSince := Some(now));
      }
      rows := rows[id := d];
      return Saved(d);
    }

    /** `listed` are the suspended rows. The reaper ends a row exactly when the time
        its owner was told has come, and touches nothing else. */
    method ReapExhausted(listed: seq<string>, cfg: Settings, now: int) returns (reaped: seq<string>)
      requires ListsSuspended(rows, listed)
      modifies this
      ensures rows.Keys == old(rows).Keys
      ensures forall id :: id in old(rows) ==> rows[id] == AfterReaper(old(rows)[id], cfg, now)
      ensures reaped == Due(old(rows), listed, cfg, now)
    {
      hide AfterReaper, DeletionDue, Apply;
      reaped := [];
      if cfg.reaper {
        for i := 0 to |listed|
          invariant rows == Reaped(old(rows), listed[..i], cfg, now)
          invariant reaped == Due(old(rows), listed[..i], cfg, now)
        {
          assert listed[..i + 1][..i] == listed[..i];
          ReapedAt(rows, old(rows), listed[..i], listed[i], cfg, now);
          var ended := ReapOne(listed[i], cfg, now);
          if ended {
            reaped := reaped + [listed[i]];
          }
        }
        assert listed[..|listed|] == listed;
        ReaperReachesAll(old(rows), listed, cfg, now);
      } else {
        NothingDue(rows, listed, cfg, now);
      }
    }

    method ReapOne(id: string, cfg: Settings, now: int) returns (ended: bool)
      requires cfg.reaper && id in rows && rows[id].state == Suspended
      modifies this
      ensures ended <==> DeletionDue(old(rows)[id], cfg, now)
      ensures rows == old(rows)[id := AfterReaper(old(rows)[id], cfg, now)]
    {
      hide Apply, DeletionDue;
      var d := rows[id];
      DueByAge(d, cfg, now);
      if d.suspendedAt.None? || !d.rental {
        return false;
      }
      var age := now - d.suspendedAt.value;
      var deadline := if d.saveOnExhaustion then cfg.retentionDays * 86400 else cfg.graceMinutes * 60;
      if age < deadline {
        return false;
      }
      var o := UpdateStatus(id, ReaperReport(now), now);
      return true;
    }
  }

  ghost predicate ListsSuspended(rows: map<string, Deployment>, listed: seq<string>) {
    && (forall i :: 0 <= i < |listed| ==> listed[i] in rows && rows[listed[i]].state == Suspended)
    && (forall id :: id in rows && rows[id].state == Suspended ==> id in listed)
    && (forall i, j :: 0 <= i < j < |listed| ==> listed[i] != listed[j])
  }

  /** The rows of a list whose deletion is due, in the list's order. */
  function Due(rows: map<string, Deployment>, ids: seq<string>, cfg: Settings, now: int): seq<string> {
    if ids == [] then []
    else
      var id := ids[|ids| - 1];
      Due(rows, ids[..|ids| - 1], cfg, now) + (if id in rows && DeletionDue(rows[id], cfg, now) then [id] else [])
  }

  function Reaped(rows: map<string, Deployment>, ids: seq<string>, cfg: Settings, now: int): map<string, Deployment> {
    if ids == [] then rows
    else
      var before := Reaped(rows, ids[..|ids| - 1], cfg, now);
      var id := ids[|ids| - 1];
      if id in before then before[id := AfterReaper(before[id], cfg, now)] else before
  }

  lemma {:induction false} ReapedAt(
    after: map<string, Deployment>, rows: map<string, Deployment>, ids: seq<string>, id: string, cfg: Settings,
      now: int)
    requires after == Reaped(rows, ids, cfg, now)
    requires forall i, j :: 0 <= i < j < |ids| ==> ids[i] != ids[j]
    ensures after.Keys == rows.Keys
    ensures id in rows ==> after[id] == if id in ids then AfterReaper(rows[id], cfg, now) else rows[id]
  {
    hide AfterReaper;
    if ids != [] {
      var front := ids[..|ids| - 1];
      assert ids == front + [ids[|ids| - 1]];
      ReapedAt(Reaped(rows, front, cfg, now), rows, front, id, cfg, now);
    }
  }

  lemma ReaperReachesAll(rows: map<string, Deployment>, listed: seq<string>, cfg: Settings, now: int)
    requires ListsSuspended(rows, listed)
    ensures Reaped(rows, listed, cfg, now).Keys == rows.Keys
    ensures forall id :: id in rows ==> Reaped(rows, listed, cfg, now)[id] == AfterReaper(rows[id], cfg, now)
  {
    hide AfterReaper;
    ReapedAt(Reaped(rows, listed, cfg, now), rows, listed, "", cfg, now);
    forall id | id in rows ensures Reaped(rows, listed, cfg, now)[id] == AfterReaper(rows[id], cfg, now) {
      ReapedAt(Reaped(rows, listed, cfg, now), rows, listed, id, cfg, now);
      DueByAge(rows[id], cfg, now);
    }
  }

  lemma {:induction false} NothingDue(rows: map<string, Deployment>, ids: seq<string>, cfg: Settings, now: int)
    requires !cfg.reaper
    ensures Due(rows, ids, cfg, now) == []
    ensures forall id :: id in rows ==> AfterReaper(rows[id], cfg, now) == rows[id]
  {
    if ids != [] {
      NothingDue(rows, ids[..|ids| - 1], cfg, now);
    }
  }

  function ReaperReport(now: int): Report { Report(Terminated, now, 0, Some("retention expired"), None) }

  function AfterReaper(d: Deployment, cfg: Settings, now: int): Deployment {
    if DeletionDue(d, cfg, now) && Apply(d, ReaperReport(now), now).Saved?
    then Apply(d, ReaperReport(now), now).row
    else d
  }

  /** A row that is due is ended, with a text; its clocks stay. */
  lemma ReapedIs(d: Deployment, cfg: Settings, now: int)
    ensures DeletionDue(d, cfg, now) ==>
              var r := AfterReaper(d, cfg, now);
              r.lastError.Some? && r == d.(state := Terminated, readyInstances := 0, lastError := r.lastError)
  {
  }

  /** The reaper's list names the due rows, in the order they were listed. */
  lemma {:induction false} DueAre(rows: map<string, Deployment>, ids: seq<string>, cfg: Settings, now: int)
    ensures forall id :: id in Due(rows, ids, cfg, now) <==> id in ids && id in rows && DeletionDue(rows[id], cfg, now)
    ensures (forall i :: 0 <= i < |ids| ==> ids[i] in rows && DeletionDue(rows[ids[i]], cfg, now)) ==>
              Due(rows, ids, cfg, now) == ids
  {
    hide DeletionDue;
    if ids != [] {
      var front := ids[..|ids| - 1];
      DueAre(rows, front, cfg, now);
      assert ids == front + [ids[|ids| - 1]];
    }
  }

  /** The reaper's arithmetic on ages and the time the owner is told agree, and a
      row that is due can be ended. */
  lemma DueByAge(d: Deployment, cfg: Settings, now: int)
    ensures DeletionDue(d, cfg, now) <==>
              cfg.reaper && d.state == Suspended && d.suspendedAt.Some? && d.rental &&
              !(now - d.suspendedAt.value <
                (if d.saveOnExhaustion then cfg.retentionDays * 86400 else cfg.graceMinutes * 60))
    ensures DeletionDue(d, cfg, now) ==>
              AfterReaper(d, cfg, now).state == Terminated &&
              Apply(d, ReaperReport(now), now) == Saved(AfterReaper(d, cfg, now))
    ensures !DeletionDue(d, cfg, now) ==> AfterReaper(d, cfg, now) == d
  {
  }
}
