/**
  Whole runs of the meter: time passing, deployments starting and stopping,
  top-ups, storage debits and metering passes, in any order and with any gaps.
 */
module MeterRuns {
  import opened Common
  import opened Metering

  datatype Step =
    | Tick(seconds: real)
    | SaveReady(deployment: string)     // a READY report saves the state ...
    | Stamp(deployment: string)         // ... and then, in a second transaction, billable_since
    | LeaveReady(deployment: string)    // suspended, failed, terminated, requeued
    | Deposit(user: string, cents: nat)
    | StorageDebit(user: string, deployment: string, cents: nat)   // may go negative
    | Relock(deployment: string, rateCents: nat, readyInstances: nat)   // a placement or a report
    | Pass(elapsed: Option<real>, ids: seq<string>, silent: set<string>)

  predicate Distinct(ids: seq<string>) { forall i, j :: 0 <= i < j < |ids| ==> ids[i] != ids[j] }

  /** A pass meters READY rows, each once, and claims at most the time since the
      previous pass. */
  predicate PassPossible(w: World, elapsed: Option<real>, ids: seq<string>) {
    && CycleSeconds(elapsed) <= w.now - w.lastPass
    && Distinct(ids)
    && forall i :: 0 <= i < |ids| ==> ids[i] in w.rows && w.rows[ids[i]].ready
  }

  function Ran(row: Row, seconds: real): Row {
    if row.ready then row.(books := row.books.(ran := row.books.ran + seconds)) else row
  }

  function Marked(row: Row): Row { row.(books := row.books.(ranAtPass := row.books.ran)) }

  function Apply(w: World, step: Step): World {
    match step
    case Tick(t) =>
      if t < 0.0 then w else w.(now := w.now + t, rows := map d | d in w.rows :: Ran(w.rows[d], t))
    case SaveReady(d) =>
      if d in w.rows && !w.rows[d].ready
      then w.(rows := w.rows[d := w.rows[d].(ready := true, savedAt := w.now, awaiting := true)]) else w
    case Stamp(d) =>
      if d in w.rows && w.rows[d].awaiting
      then w.(rows := w.rows[d := w.rows[d].(awaiting := false, since := Some(w.now))]) else w
    case LeaveReady(d) =>
      if d in w.rows then w.(rows := w.rows[d := w.rows[d].(ready := false)]) else w
    case Deposit(u, c) => if u in w.balances then Post(w, u, c, TopUp, "") else w
    case StorageDebit(u, d, c) => if u in w.balances then Post(w, u, -(c as int), Storage, d) else w
    case Relock(d, rate, instances) =>
      if d in w.rows then w.(rows := w.rows[d := w.rows[d].(rateCents := rate, readyInstances := instances)]) else w
    case Pass(elapsed, ids, silent) =>
      if PassPossible(w, elapsed, ids)
      then
        var m := MeterAll(w, ids, CycleSeconds(elapsed), silent);
        m.(lastPass := w.now, rows := map d | d in m.rows :: Marked(m.rows[d]))
      else w
  }

  function Run(w: World, steps: seq<Step>): World {
    if steps == [] then w else Apply(Run(w, steps[..|steps| - 1]), steps[|steps| - 1])
  }

  /** A new rate or number of instances is on the row from then on, and nothing else is. */
  lemma RelockIs(w: World, d: string, rate: nat, instances: nat)
    ensures d in w.rows ==>
              Apply(w, Relock(d, rate, instances)) ==
              w.(rows := w.rows[d := w.rows[d].(rateCents := rate, readyInstances := instances)])
  {
  }

  /** Only the report that saved READY stamps it. */
  lemma StampIs(w: World, d: string)
    ensures d in w.rows ==>
              Apply(w, Stamp(d)) ==
              if w.rows[d].awaiting then w.(rows := w.rows[d := w.rows[d].(awaiting := false, since := Some(w.now))])
              else w
  {
  }

  // --- The ledger ------------------------------------------------------------------

  function LedgerTotal(ledger: seq<Entry>, user: string): int {
    if ledger == [] then 0
    else LedgerTotal(ledger[..|ledger| - 1], user) +
         (if ledger[|ledger| - 1].user == user then ledger[|ledger| - 1].cents else 0)
  }

  /** Cents debited for a deployment's usage. */
  function Debited(ledger: seq<Entry>, d: string): int {
    if ledger == [] then 0
    else Debited(ledger[..|ledger| - 1], d) -
         (if ledger[|ledger| - 1].kind == Usage && ledger[|ledger| - 1].reference == d
          then ledger[|ledger| - 1].cents else 0)
  }

  lemma PostTotals(w: World, user: string, cents: int, kind: EntryKind, reference: string)
    requires user in w.balances
    ensures var p := Post(w, user, cents, kind, reference);
            (forall u :: LedgerTotal(p.ledger, u) == LedgerTotal(w.ledger, u) + (if u == user then cents else 0)) &&
            (forall d ::
              Debited(p.ledger, d) == Debited(w.ledger, d) - (if kind == Usage && d == reference then cents else 0))
  {
    var p := Post(w, user, cents, kind, reference);
    assert p.ledger[..|p.ledger| - 1] == w.ledger;
  }

  /** What a pass says it debited is what it wrote into the ledger: for each row it
      metered, those cents; for every other, none. */
  lemma {:induction false} DebitsAreLedger(w: World, ids: seq<string>, cycle: real, silent: set<string>, d: string)
    requires cycle >= 0.0 && Distinct(ids)
    ensures var debits := Debits(w, ids, cycle, silent);
            Debited(MeterAll(w, ids, cycle, silent).ledger, d) - Debited(w.ledger, d) ==
              (if d in debits then debits[d] else 0)
    ensures d !in ids ==> d !in Debits(w, ids, cycle, silent)
  {
    if ids != [] {
      var front, e := ids[..|ids| - 1], ids[|ids| - 1];
      DebitsAreLedger(w, front, cycle, silent, d);
      hide Charge;
      var m := MeterAll(w, front, cycle, silent);
      MeterOneLedger(m, e, cycle, silent, d);
      assert e !in front;
    }
  }

  /** Only what was debited is in the list. */
  lemma {:induction false} DebitsArePositive(w: World, ids: seq<string>, cycle: real, silent: set<string>, d: string)
    requires cycle >= 0.0
    ensures d in Debits(w, ids, cycle, silent) ==> d in ids && Debits(w, ids, cycle, silent)[d] > 0
  {
    hide Debit, MeterAll;
    if ids != [] {
      DebitsArePositive(w, ids[..|ids| - 1], cycle, silent, d);
    }
  }

  lemma MeterOneLedger(m: World, e: string, cycle: real, silent: set<string>, d: string)
    requires cycle >= 0.0
    ensures Debited(MeterOne(m, e, cycle, silent).ledger, d) ==
            Debited(m.ledger, d) + (if d == e then Debit(m, e, cycle, silent) else 0)
  {
    if e in m.rows && Debit(m, e, cycle, silent) > 0 {
      var balance := BalanceOf(m, m.rows[e].owner);
      var c := Charge(m.rows[e], balance, cycle, e in silent, m.now);
      assert balance.Some?;
      hide Charge;
      PostTotals(m.(rows := m.rows[e := c.row]), m.rows[e].owner.value, -(c.take as int), Usage, e);
    }
  }

  // --- Money, over every run -----------------------------------------------------------

  /** What accrued is what was debited, in millicents, plus what is carried; it is the
      exact price of the stretches billed, but for half a millicent a pass. */
  ghost predicate Conserved(row: Row, debited: int) {
    && row.books.start + row.books.accrued == 1000 * debited + row.remainder
    && (!row.books.short ==> row.remainder < 1000)
    && Rounded(row)
  }

  ghost predicate Rounded(row: Row) {
    var off := row.books.accrued as real - Cost(row.books.stretches);
    -0.5 * |row.books.stretches| as real <= off <= 0.5 * |row.books.stretches| as real
  }

  ghost predicate OwnerKnown(row: Row, balances: map<string, int>) {
    row.owner.Some? ==> row.owner.value in balances
  }

  ghost predicate RowFine(w: World, d: string) {
    d in w.rows ==> OwnerKnown(w.rows[d], w.balances) && Conserved(w.rows[d], Debited(w.ledger, d))
  }

  /** `opening` are the balances before the first ledger entry. */
  ghost predicate BalancesFine(w: World, opening: map<string, int>) {
    && w.balances.Keys == opening.Keys
    && forall u :: u in opening ==> w.balances[u] == opening[u] + LedgerTotal(w.ledger, u)
  }

  /** No charge for usage left a balance below zero. */
  predicate UsageCovered(ledger: seq<Entry>) {
    forall i :: 0 <= i < |ledger| && ledger[i].kind == Usage ==> ledger[i].balanceAfter >= 0
  }

  ghost predicate Fine(w: World, opening: map<string, int>) {
    BalancesFine(w, opening) && UsageCovered(w.ledger) && forall d :: RowFine(w, d)
  }

  /** No balance has been taken below zero. */
  ghost predicate NoneOverdrawn(w: World, after: World, opening: map<string, int>) {
    forall u :: u in opening ==>
      u in w.balances && u in after.balances && after.balances[u] >= Min(w.balances[u], 0)
  }

  lemma SameBalances(w: World, opening: map<string, int>)
    requires Fine(w, opening)
    ensures NoneOverdrawn(w, w, opening)
  {
  }

  lemma CostSnoc(stretches: seq<Stretch>, s: Stretch)
    ensures Cost(stretches + [s]) == Cost(stretches) + s.mcentsPerHour as real * s.seconds / 3600.0
    ensures Seconds(stretches + [s]) == Seconds(stretches) + s.seconds
  {
    assert (stretches + [s])[..|stretches|] == stretches;
  }

  lemma RoundsOnce(accrued: nat, cost: real, n: nat, add: nat, e: real)
    requires -0.5 * n as real <= accrued as real - cost <= 0.5 * n as real
    requires -0.5 <= add as real - e <= 0.5
    ensures var off := (accrued + add) as real - (cost + e);
            -0.5 * (n + 1) as real <= off <= 0.5 * (n + 1) as real
  {
    assert (n + 1) as real == n as real + 1.0 && (accrued + add) as real == accrued as real + add as real;
  }

  lemma AccrueBooks(row: Row, seconds: real)
    requires seconds >= 0.0
    ensures var b, after := row.books, AccrueRow(row, seconds).0.books;
            && after.accrued == b.accrued + Accrual(row, seconds) && |after.stretches| == |b.stretches| + 1
            && Cost(after.stretches) == Cost(b.stretches) + ExactMilliCents(row, seconds)
  {
    CostSnoc(row.books.stretches, Stretch(MilliCentsPerHour(row), seconds));
    hide Accrue, Accrual, MilliCentsPerHour, Cost;
  }

  lemma AccrueRounds(row: Row, seconds: real)
    requires seconds >= 0.0 && Rounded(row)
    ensures Rounded(AccrueRow(row, seconds).0)
  {
    hide AccrueRow, Accrual, ExactMilliCents, Cost;
    AccrueBooks(row, seconds);
    var b := row.books;
    RoundsOnce(b.accrued, Cost(b.stretches), |b.stretches|, Accrual(row, seconds), ExactMilliCents(row, seconds));
  }

  lemma ChargeRounds(row: Row, balance: int, cycle: real, silent: bool, now: real)
    requires cycle >= 0.0 && Rounded(row)
    ensures Rounded(Charge(row, Some(balance), cycle, silent, now).row)
  {
    AccrueRounds(row, BilledSeconds(row, cycle, now));
    hide BilledSeconds, AccrueRow, Take, Cost;
  }

  lemma ChargeMoney(row: Row, balance: int, cycle: real, silent: bool, now: real, debited: int)
    requires cycle >= 0.0 && Conserved(row, debited)
    ensures var c := Charge(row, Some(balance), cycle, silent, now);
            Conserved(c.row, debited + c.take) && c.row.owner == row.owner
  {
    hide AccrueRow, BilledSeconds, Rounded, Take;
    ChargeRounds(row, balance, cycle, silent, now);
    AccrueMoney(row, BilledSeconds(row, cycle, now));
  }

  lemma AccrueMoney(row: Row, seconds: real)
    requires seconds >= 0.0
    ensures var (after, whole) := AccrueRow(row, seconds);
            && after.books.accrued + row.remainder == row.books.accrued + 1000 * whole + after.remainder
            && after.remainder < 1000 && after.books.start == row.books.start && after.books.short == row.books.short
  {
    hide Accrual, MilliCentsPerHour;
  }

  lemma MeterOneBalances(w: World, d: string, cycle: real, silent: set<string>, opening: map<string, int>)
    requires cycle >= 0.0 && BalancesFine(w, opening) && UsageCovered(w.ledger)
    ensures BalancesFine(MeterOne(w, d, cycle, silent), opening) && UsageCovered(MeterOne(w, d, cycle, silent).ledger)
    ensures forall u :: u in opening ==> MeterOne(w, d, cycle, silent).balances[u] >= Min(w.balances[u], 0)
  {
    if d in w.rows {
      var row := w.rows[d];
      var balance := BalanceOf(w, row.owner);
      var c := Charge(row, balance, cycle, d in silent, w.now);
      if balance.Some? {
        ChargeStopsAtFloor(row, balance.value, cycle, d in silent, w.now);
        TakesWhatIsThere(row, balance.value, cycle, d in silent, w.now);
        hide Charge;
        PostTotals(w.(rows := w.rows[d := c.row]), row.owner.value, -(c.take as int), Usage, d);
      }
    }
  }

  lemma TakesWhatIsThere(row: Row, balance: int, cycle: real, silent: bool, now: real)
    requires cycle >= 0.0
    ensures var c := Charge(row, Some(balance), cycle, silent, now); c.take > 0 ==> balance - c.take >= 0
  {
    hide AccrueRow, BilledSeconds;
  }

  lemma MeterOneRow(w: World, d: string, cycle: real, silent: set<string>)
    requires cycle >= 0.0 && forall e :: RowFine(w, e)
    ensures forall e :: RowFine(MeterOne(w, d, cycle, silent), e)
  {
    var m := MeterOne(w, d, cycle, silent);
    if d in w.rows {
      assert RowFine(w, d);
      MeterOneRows(w, d, cycle, silent);
      ChargedRow(w, d, cycle, silent);
      hide MeterOne, Conserved;
      forall e ensures RowFine(m, e) {
        assert RowFine(w, e);
        MeterOneLedger(w, d, cycle, silent, e);
      }
    }
  }

  lemma ChargedRow(w: World, d: string, cycle: real, silent: set<string>)
    requires cycle >= 0.0 && d in w.rows && RowFine(w, d)
    ensures var c := Charge(w.rows[d], BalanceOf(w, w.rows[d].owner), cycle, d in silent, w.now);
            && c.row.owner == w.rows[d].owner && c.take == Debit(w, d, cycle, silent)
            && Conserved(c.row, Debited(w.ledger, d) + c.take)
  {
    hide Charge, Conserved;
    var row, balance := w.rows[d], BalanceOf(w, w.rows[d].owner);
    ChargeOwner(row, balance, cycle, d in silent, w.now);
    if balance.Some? {
      ChargeMoney(row, balance.value, cycle, d in silent, w.now, Debited(w.ledger, d));
    }
  }

  lemma ChargeOwner(row: Row, balance: Option<int>, cycle: real, silent: bool, now: real)
    requires cycle >= 0.0
    ensures var c := Charge(row, balance, cycle, silent, now);
            c.row.owner == row.owner && (row.owner.None? ==> c == Charged(row, 0))
  {
    hide Accrual, Accrue, BilledSeconds, Take;
  }

  lemma {:induction false} MeterAllKeeps(w: World, ids: seq<string>, cycle: real, silent: set<string>,
      opening: map<string, int>)
    requires Fine(w, opening) && cycle >= 0.0
    ensures var m := MeterAll(w, ids, cycle, silent);
            && Fine(m, opening) && m.now == w.now && m.lastPass == w.lastPass
            && forall u :: u in opening ==> m.balances[u] >= Min(w.balances[u], 0)
  {
    if ids != [] {
      var front, d := ids[..|ids| - 1], ids[|ids| - 1];
      MeterAllKeeps(w, front, cycle, silent, opening);
      hide RowFine, MeterOne, UsageCovered;
      var m := MeterAll(w, front, cycle, silent);
      MeterOneBalances(m, d, cycle, silent, opening);
      MeterOneRow(m, d, cycle, silent);
      MeterOneClock(m, d, cycle, silent);
    }
  }

  lemma MeterOneClock(w: World, d: string, cycle: real, silent: set<string>)
    requires cycle >= 0.0
    ensures var m := MeterOne(w, d, cycle, silent); m.now == w.now && m.lastPass == w.lastPass
  {
    hide Charge;
  }

  lemma MarkedConserves(row: Row, debited: int)
    ensures Conserved(Marked(row), debited) <==> Conserved(row, debited)
  {
  }

  lemma PassKeeps(w: World, elapsed: Option<real>, ids: seq<string>, silent: set<string>, opening: map<string, int>)
    requires Fine(w, opening) && PassPossible(w, elapsed, ids)
    ensures Fine(Apply(w, Pass(elapsed, ids, silent)), opening)
    ensures NoneOverdrawn(w, Apply(w, Pass(elapsed, ids, silent)), opening)
  {
    hide CycleSeconds, MeterAll, UsageCovered;
    var m := MeterAll(w, ids, CycleSeconds(elapsed), silent);
    MeterAllKeeps(w, ids, CycleSeconds(elapsed), silent, opening);
    var after := Apply(w, Pass(elapsed, ids, silent));
    hide Conserved;
    forall d ensures RowFine(after, d) {
      assert RowFine(m, d);
      if d in m.rows {
        MarkedConserves(m.rows[d], Debited(m.ledger, d));
      }
    }
  }

  lemma PostKeeps(w: World, user: string, cents: int, kind: EntryKind, reference: string, opening: map<string, int>)
    requires Fine(w, opening) && user in w.balances && kind != Usage
    ensures Fine(Post(w, user, cents, kind, reference), opening)
    ensures cents >= 0 ==> NoneOverdrawn(w, Post(w, user, cents, kind, reference), opening)
  {
    hide Conserved;
    var after := Post(w, user, cents, kind, reference);
    PostTotals(w, user, cents, kind, reference);
    forall d ensures RowFine(after, d) {
      assert RowFine(w, d);
    }
  }

  predicate ChangesRow(step: Step) { step.SaveReady? || step.Stamp? || step.LeaveReady? || step.Relock? || step.Tick? }

  lemma StateKeeps(w: World, step: Step, opening: map<string, int>)
    requires Fine(w, opening) && ChangesRow(step)
    ensures Fine(Apply(w, step), opening) && NoneOverdrawn(w, Apply(w, step), opening)
  {
    var after := Apply(w, step);
    forall d ensures RowFine(after, d) {
      assert RowFine(w, d);
      if d in w.rows {
        assert d in after.rows && after.rows[d].owner == w.rows[d].owner &&
               after.rows[d].remainder == w.rows[d].remainder;
        assert Conserved(after.rows[d], Debited(w.ledger, d));
      }
    }
  }

  lemma StepKeeps(w: World, step: Step, opening: map<string, int>)
    requires Fine(w, opening)
    ensures Fine(Apply(w, step), opening)
    ensures !step.StorageDebit? ==> NoneOverdrawn(w, Apply(w, step), opening)
  {
    SameBalances(w, opening);
    hide Fine, NoneOverdrawn;
    if ChangesRow(step) {
      StateKeeps(w, step, opening);
    } else {
      hide MeterAll, Post, CycleSeconds;
      match step
      case Deposit(u, c) => if u in w.balances { PostKeeps(w, u, c, TopUp, "", opening); }
      case StorageDebit(u, d, c) => if u in w.balances { PostKeeps(w, u, -(c as int), Storage, d, opening); }
      case Pass(elapsed, ids, silent) =>
        if PassPossible(w, elapsed, ids) { PassKeeps(w, elapsed, ids, silent, opening); }
    }
  }

  /** A fresh start: nothing billed yet, every READY rental just saved and stamped. */
  ghost predicate Initial(w: World) {
    && w.ledger == [] && w.lastPass <= w.now
    && forall d :: d in w.rows ==>
         var row := w.rows[d];
         OwnerKnown(row, w.balances) &&
         row.books == NO_BOOKS.(start := row.remainder) && row.remainder < 1000 &&
         !row.awaiting &&
         (row.ready ==> row.savedAt == w.now && Stamped(row))
  }

  lemma {:induction false} RunKeeps(w: World, steps: seq<Step>)
    requires Initial(w)
    ensures Fine(Run(w, steps), w.balances)
  {
    if steps == [] {
      forall d ensures RowFine(w, d) {
      }
    } else {
      RunKeeps(w, steps[..|steps| - 1]);
      hide Fine, Apply, Initial;
      StepKeeps(Run(w, steps[..|steps| - 1]), steps[|steps| - 1], w.balances);
    }
  }

  /** Conservation, over every run: millicents accrued are 1000 times the cents in the
      ledger plus the change of the remainder, and every balance is its opening plus
      its ledger. */
  lemma NothingLost(w: World, steps: seq<Step>, d: string, u: string)
    requires Initial(w) && d in Run(w, steps).rows && u in w.balances
    ensures var end := Run(w, steps);
            end.rows[d].books.accrued ==
              1000 * Debited(end.ledger, d) + end.rows[d].remainder - end.rows[d].books.start &&
            u in end.balances && end.balances[u] == w.balances[u] + LedgerTotal(end.ledger, u)
  {
    RunKeeps(w, steps);
    assert RowFine(Run(w, steps), d);
  }

  /** The price, over every run: while no pass fell short, the cents debited are the
      accrued total rounded down, and the total is within half a millicent a pass of
      the exact price of the stretches billed, each at the rate of its time. */
  lemma PriceIsExact(w: World, steps: seq<Step>, d: string)
    requires Initial(w) && d in Run(w, steps).rows
    ensures var b := Run(w, steps).rows[d].books;
            && (!b.short ==> Debited(Run(w, steps).ledger, d) == (b.start + b.accrued) / 1000)
            && -0.5 * |b.stretches| as real <= b.accrued as real - Cost(b.stretches) <= 0.5 * |b.stretches| as real
  {
    RunKeeps(w, steps);
    assert RowFine(Run(w, steps), d);
  }

  /** Over every run no charge for usage leaves a balance below zero, and without
      storage debits nothing else does. */
  lemma {:induction false} UsageNeverOverdraws(w: World, steps: seq<Step>, u: string)
    requires Initial(w) && u in w.balances && w.balances[u] >= 0
    ensures UsageCovered(Run(w, steps).ledger)
    ensures u in Run(w, steps).balances
    ensures (forall i :: 0 <= i < |steps| ==> !steps[i].StorageDebit?) ==> Run(w, steps).balances[u] >= 0
  {
    RunKeeps(w, steps);
    if steps != [] {
      var before := Run(w, steps[..|steps| - 1]);
      UsageNeverOverdraws(w, steps[..|steps| - 1], u);
      RunKeeps(w, steps[..|steps| - 1]);
      hide Apply;
      StepKeeps(before, steps[|steps| - 1], w.balances);
    }
  }

  // --- Time ------------------------------------------------------------------------------

  /** The meter starts no earlier than READY was saved; a private model that was never
      stamped is stamped by the first pass that sees it. */
  predicate Stamped(row: Row) {
    if row.since.Some? then row.since.value >= row.savedAt else row.kind == PrivateModel
  }

  /** What a pass bills a row for fits into the stretch since READY was saved exactly
      when the pass looks back no further, or the row is stamped for that stretch. */
  lemma BillFitsIff(row: Row, cycle: real, now: real)
    requires row.savedAt <= now
    ensures BilledSeconds(row, cycle, now) <= now - row.savedAt <==>
            cycle <= now - row.savedAt || (row.since.Some? && row.since.value >= row.savedAt)
  {
  }

  /** A pass that comes between the two writes of a READY report is in time if it
      looks back no further than the first of them. */
  predicate InTime(row: Row, cycle: real, now: real) { cycle <= now - row.savedAt || Stamped(row) }

  predicate TimelyPass(w: World, step: Step) {
    step.Pass? ==>
      forall i :: 0 <= i < |step.ids| && step.ids[i] in w.rows ==>
             InTime(w.rows[step.ids[i]], CycleSeconds(step.elapsed), w.now)
  }

  predicate Timely(w: World, steps: seq<Step>) {
    forall k :: 0 <= k < |steps| ==> TimelyPass(Run(w, steps[..k]), steps[k])
  }

  /** Everything billed was READY by the last pass, and a READY row has been so since
      the last pass or since it was saved, whichever is later. */
  predicate TimeFine(row: Row, now: real, lastPass: real) {
    && Seconds(row.books.stretches) <= row.books.ranAtPass <= row.books.ran
    && (row.ready ==>
          && row.savedAt <= now && now - MaxR(lastPass, row.savedAt) <= row.books.ran - row.books.ranAtPass
          && (row.awaiting || Stamped(row)))
  }

  ghost predicate AllTimeFine(w: World) {
    w.lastPass <= w.now && forall d :: d in w.rows ==> TimeFine(w.rows[d], w.now, w.lastPass)
  }

  /** A row after a pass, before it is marked. */
  predicate TimeBilled(row: Row, before: Row) {
    && Seconds(row.books.stretches) <= row.books.ran == before.books.ran
    && (row.ready ==> before.ready) && row.savedAt == before.savedAt && row.awaiting == before.awaiting
    && (Stamped(before) ==> Stamped(row))
  }

  lemma ChargeTime(row: Row, balance: Option<int>, cycle: real, silent: bool, now: real, lastPass: real)
    requires 0.0 <= cycle <= now - lastPass && TimeFine(row, now, lastPass) && row.ready && InTime(row, cycle, now)
    ensures TimeBilled(Charge(row, balance, cycle, silent, now).row, row)
  {
    BillFitsIff(row, cycle, now);
    var seconds := BilledSeconds(row, cycle, now);
    CostSnoc(row.books.stretches, Stretch(MilliCentsPerHour(row), seconds));
    ChargeShape(row, balance, cycle, silent, now);
    hide Charge, Seconds, Cost;
  }

  lemma ChargeShape(row: Row, balance: Option<int>, cycle: real, silent: bool, now: real)
    requires cycle >= 0.0
    ensures var r := Charge(row, balance, cycle, silent, now).row;
            && r.books.ran == row.books.ran && r.savedAt == row.savedAt && r.awaiting == row.awaiting &&
               r.kind == row.kind
            && (r.ready ==> row.ready)
            && (if Accrues(row, silent)
                then r.since == row.since &&
                     r.books.stretches ==
                       row.books.stretches + [Stretch(MilliCentsPerHour(row), BilledSeconds(row, cycle, now))]
                else r.books.stretches == row.books.stretches &&
                     (r.since == row.since || (row.since.None? && r.since == Some(now))))
  {
    hide Accrual, Accrue, BilledSeconds, MilliCentsPerHour, Take;
  }

  /** Halfway through a pass the metered rows fit, the others are as before. */
  ghost predicate Halfway(w: World, m: World, ids: seq<string>) {
    && m.now == w.now && m.rows.Keys == w.rows.Keys
    && (forall d :: d in w.rows && d !in ids ==> m.rows[d] == w.rows[d])
    && (forall d :: d in w.rows && d in ids ==> TimeBilled(m.rows[d], w.rows[d]))
  }

  lemma MeterOneRows(w: World, d: string, cycle: real, silent: set<string>)
    requires cycle >= 0.0 && d in w.rows
    ensures var m := MeterOne(w, d, cycle, silent);
            && m.now == w.now && m.lastPass == w.lastPass && m.balances.Keys == w.balances.Keys
            && m.rows == w.rows[d := Charge(w.rows[d], BalanceOf(w, w.rows[d].owner), cycle, d in silent, w.now).row]
  {
    hide Charge;
  }

  lemma {:induction false} MeterAllTimes(w: World, ids: seq<string>, cycle: real, silent: set<string>)
    requires AllTimeFine(w) && 0.0 <= cycle <= w.now - w.lastPass && Distinct(ids)
    requires forall i :: 0 <= i < |ids| ==>
               ids[i] in w.rows && w.rows[ids[i]].ready && InTime(w.rows[ids[i]], cycle, w.now)
    ensures Halfway(w, MeterAll(w, ids, cycle, silent), ids)
  {
    hide AllTimeFine, InTime, MeterOne, TimeBilled;
    if ids != [] {
      var front, d := ids[..|ids| - 1], ids[|ids| - 1];
      MeterAllTimes(w, front, cycle, silent);
      hide Halfway;
      assert ids == front + [d] && d !in front;
      MeterOneTimes(w, MeterAll(w, front, cycle, silent), front, d, cycle, silent);
    }
  }

  lemma MeterOneTimes(w: World, m: World, front: seq<string>, d: string, cycle: real, silent: set<string>)
    requires AllTimeFine(w) && 0.0 <= cycle <= w.now - w.lastPass && Halfway(w, m, front)
    requires d in w.rows && d !in front && w.rows[d].ready && InTime(w.rows[d], cycle, w.now)
    ensures Halfway(w, MeterOne(m, d, cycle, silent), front + [d])
  {
    hide MeterOne, TimeBilled, TimeFine, InTime, Charge;
    MeterOneRows(m, d, cycle, silent);
    ChargeTime(w.rows[d], BalanceOf(m, w.rows[d].owner), cycle, d in silent, w.now, w.lastPass);
  }

  lemma MarkedFits(before: Row, after: Row, now: real, lastPass: real)
    requires TimeFine(before, now, lastPass) && (after == before || TimeBilled(after, before))
    ensures TimeFine(Marked(after), now, now)
  {
  }

  lemma PassTimes(w: World, elapsed: Option<real>, ids: seq<string>, silent: set<string>)
    requires AllTimeFine(w) && PassPossible(w, elapsed, ids) && TimelyPass(w, Pass(elapsed, ids, silent))
    ensures AllTimeFine(Apply(w, Pass(elapsed, ids, silent)))
  {
    hide CycleSeconds, TimeFine, TimeBilled, InTime;
    MeterAllTimes(w, ids, CycleSeconds(elapsed), silent);
    var m, after := MeterAll(w, ids, CycleSeconds(elapsed), silent), Apply(w, Pass(elapsed, ids, silent));
    hide MeterAll;
    forall d | d in after.rows ensures TimeFine(after.rows[d], after.now, after.lastPass) {
      MarkedFits(w.rows[d], m.rows[d], w.now, w.lastPass);
    }
  }

  lemma StepTimes(w: World, step: Step)
    requires AllTimeFine(w) && TimelyPass(w, step)
    ensures AllTimeFine(Apply(w, step))
  {
    if step.Pass? {
      if PassPossible(w, step.elapsed, step.ids) { PassTimes(w, step.elapsed, step.ids, step.silent); }
    } else {
      hide Seconds;
    }
  }

  /** Never billed for more than it ran: whatever the suspensions, resumes, changes of
      rate, silent machines and capped passes, while passes are in time the seconds
      billed never exceed the seconds READY. */
  lemma {:induction false} NeverBilledMoreThanItRan(w: World, steps: seq<Step>)
    requires Initial(w) && Timely(w, steps)
    ensures AllTimeFine(Run(w, steps))
    ensures forall d :: d in Run(w, steps).rows ==>
              Seconds(Run(w, steps).rows[d].books.stretches) <= Run(w, steps).rows[d].books.ran
  {
    if steps != [] {
      var init := steps[..|steps| - 1];
      assert forall k :: 0 <= k < |init| ==> init[..k] == steps[..k];
      NeverBilledMoreThanItRan(w, init);
      hide Apply, TimelyPass, TimeFine, Initial;
      StepTimes(Run(w, init), steps[|steps| - 1]);
    }
    AllFit(Run(w, steps));
  }

  lemma AllFit(w: World)
    requires AllTimeFine(w)
    ensures forall d :: d in w.rows ==> Seconds(w.rows[d].books.stretches) <= w.rows[d].books.ran
  {
  }

  /** A pass that is not in time overbills a row that had been billed for all its READY
      time before: the bill exceeds the time exactly then. */
  lemma LatePassOverbillsIff(row: Row, balance: Option<int>, cycle: real, now: real)
    requires cycle >= 0.0 && Accrues(row, false) && row.savedAt <= now
    requires Seconds(row.books.stretches) + (now - row.savedAt) == row.books.ran
    ensures var r := Charge(row, balance, cycle, false, now).row;
            Seconds(r.books.stretches) > r.books.ran <==> !InTime(row, cycle, now)
  {
    BillFitsIff(row, cycle, now);
    CostSnoc(row.books.stretches, Stretch(MilliCentsPerHour(row), BilledSeconds(row, cycle, now)));
    ChargeShape(row, balance, cycle, false, now);
    hide Charge, Seconds, Cost;
  }

  /** It happens: a rental stamped at 0, stopped at once and READY again at 60, whose
      second stamp is still to come when a pass looks back a minute. */
  lemma PassBeforeStampOverbills(d: string, user: string, cents: nat)
    ensures var w := Rented(d, user, cents);
            var steps := StoppedAndBack(d) + [Pass(None, [d], {})];
            && Initial(w) && d in Run(w, steps).rows
            && Seconds(Run(w, steps).rows[d].books.stretches) == 60.0 && Run(w, steps).rows[d].books.ran == 0.0
  {
    var w := Rented(d, user, cents);
    var back := Run(w, StoppedAndBack(d));
    StoppedAndBackIs(d, user, cents);
    hide StoppedAndBack;
    var steps := StoppedAndBack(d) + [Pass(None, [d], {})];
    assert steps[..|steps| - 1] == StoppedAndBack(d);
    assert Run(w, steps) == Apply(back, Pass(None, [d], {}));
    hide Run;
    PassOnOne(back, d);
    hide Apply;
    NoSeconds();
  }

  lemma NoSeconds()
    ensures Seconds([]) == 0.0
  {
  }

  /** A pass over one row that it charges, a minute after the last. */
  lemma PassOnOne(w: World, d: string)
    requires d in w.rows && w.rows[d].ready && Accrues(w.rows[d], false) && 60.0 <= w.now - w.lastPass
    ensures var row, t := w.rows[d], Apply(w, Pass(None, [d], {}));
            && d in t.rows && t.rows[d].books.ran == row.books.ran
            && Seconds(t.rows[d].books.stretches) == Seconds(row.books.stretches) + BilledSeconds(row, 60.0, w.now)
  {
    var row := w.rows[d];
    var balance := BalanceOf(w, row.owner);
    assert CycleSeconds(None) == 60.0 && PassPossible(w, None, [d]);
    assert MeterAll(w, [d], 60.0, {}) == MeterOne(w, d, 60.0, {}) by {
      assert [d][..0] == [];
    }
    hide MeterAll, Charge, MeterOne, Cost, CycleSeconds, Seconds, MilliCentsPerHour, BilledSeconds;
    ChargeShape(row, balance, 60.0, false, w.now);
    CostSnoc(row.books.stretches, Stretch(MilliCentsPerHour(row), BilledSeconds(row, 60.0, w.now)));
    MeterOneRows(w, d, 60.0, {});
  }

  function Rented(d: string, user: string, cents: nat): World {
    var row := Row(Some(user), Rental, 1, 40, 1, false, 0.0, false, None, 0, NO_BOOKS);
    World(0.0, 0.0, map[d := row], map[user := cents], [])
  }

  function StoppedAndBack(d: string): seq<Step> { [SaveReady(d), Stamp(d), LeaveReady(d)] + [Tick(60.0), SaveReady(d)] }

  lemma StoppedAndBackIs(d: string, user: string, cents: nat)
    ensures var w := Rented(d, user, cents);
            var row := w.rows[d].(ready := true, savedAt := 60.0, awaiting := true, since := Some(0.0));
            Run(w, StoppedAndBack(d)) == World(60.0, 0.0, map[d := row], map[user := cents], [])
  {
    var w := Rented(d, user, cents);
    var a, b := [SaveReady(d), Stamp(d), LeaveReady(d)], [Tick(60.0), SaveReady(d)];
    var row := w.rows[d].(since := Some(0.0));
    assert Run(w, a) == World(0.0, 0.0, map[d := row], map[user := cents], []) by {
      assert a[..2] == [SaveReady(d), Stamp(d)] && a[..2][..1] == [SaveReady(d)] && a[..2][..1][..0] == [];
      assert Run(w, a[..2][..1]) == Apply(w, SaveReady(d));
      assert Run(w, a[..2]) == Apply(Apply(w, SaveReady(d)), Stamp(d));
    }
    var s := a + b;
    assert s[..4] == a + [Tick(60.0)] && s[..4][..3] == a && s[..|s| - 1] == s[..4];
    assert Run(w, s[..4]) == Apply(Run(w, a), Tick(60.0));
    assert Ran(row, 60.0) == row;
    assert Run(w, s[..4]) == World(60.0, 0.0, map[d := row], map[user := cents], []);
  }
}
