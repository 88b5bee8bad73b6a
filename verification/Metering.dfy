/**
  The hourly meter: what a pass charges each running deployment, the millicent
  remainder it leaves on the row, and the balances and ledger it draws on.
  Seconds are exact reals, so rounding is only where the meter rounds.
 */
module Metering {
  import opened Common

  datatype Kind = Rental | PrivateModel | CatalogModel

  /** Seconds a pass billed, and the millicents per hour it billed them at. */
  datatype Stretch = Stretch(mcentsPerHour: nat, seconds: real)

  /** What an onlooker adds up over the passes; the meter never reads it. */
  datatype Books = Books(
    start: nat,                // remainder the row began with
    accrued: nat,              // millicents accrued
    stretches: seq<Stretch>,   // one for each pass that accrued
    short: bool,               // some pass found less balance than it asked for
    ran: real,                 // seconds READY
    ranAtPass: real)           // seconds READY up to the last pass

  datatype Row = Row(
    owner: Option<string>, kind: Kind, gpus: nat, rateCents: nat, readyInstances: nat,
    ready: bool,
    savedAt: real,             // when READY was last saved
    awaiting: bool,            // the report that saved it has yet to stamp `since`
    since: Option<real>,       // billable_since
    remainder: nat, books: Books)

  /** Seconds billed in all. */
  function Seconds(stretches: seq<Stretch>): real {
    if stretches == [] then 0.0 else Seconds(stretches[..|stretches| - 1]) + stretches[|stretches| - 1].seconds
  }

  /** The exact price: each stretch at its own rate. */
  function Cost(stretches: seq<Stretch>): real {
    if stretches == [] then 0.0
    else
      var s := stretches[|stretches| - 1];
      Cost(stretches[..|stretches| - 1]) + s.mcentsPerHour as real * s.seconds / 3600.0
  }

  /** At one rate throughout, that is the rate times the seconds billed. */
  lemma {:induction false} CostAtOneRate(stretches: seq<Stretch>, mcentsPerHour: nat)
    requires forall i :: 0 <= i < |stretches| ==> stretches[i].mcentsPerHour == mcentsPerHour
    ensures Cost(stretches) == mcentsPerHour as real * Seconds(stretches) / 3600.0
  {
    if stretches != [] {
      var front, last := stretches[..|stretches| - 1], stretches[|stretches| - 1].seconds;
      CostAtOneRate(front, mcentsPerHour);
      var m := mcentsPerHour as real;
      assert m * (Seconds(front) + last) == m * Seconds(front) + m * last;
    }
  }

  // --- One row in one pass -------------------------------------------------------

  function MinR(a: real, b: real): real { if a <= b then a else b }
  function MaxR(a: real, b: real): real { if a <= b then b else a }

  /** Seconds a pass may charge: the time since the last one, capped at an hour;
      a minute when the caller did not measure it. */
  function CycleSeconds(elapsed: Option<real>): (s: real)
    ensures 0.0 <= s <= 3600.0
  {
    if elapsed.None? then 60.0 else MaxR(0.0, MinR(elapsed.value, 3600.0))
  }

  /** Never for time before the row last became READY. */
  function BilledSeconds(row: Row, cycle: real, now: real): (s: real)
    ensures cycle >= 0.0 ==> 0.0 <= s <= cycle
  {
    if row.since.Some? then MinR(cycle, MaxR(0.0, now - row.since.value)) else cycle
  }

  /** Round to nearest, ties to even. */
  function Round(x: real): int {
    var f := x.Floor;
    var part := x - f as real;
    if part < 0.5 || (part == 0.5 && f % 2 == 0) then f else f + 1
  }

  lemma RoundIsNearest(x: real)
    ensures -0.5 <= Round(x) as real - x <= 0.5
    ensures x >= 0.0 ==> Round(x) >= 0
  {
  }

  /** Halfway between two it is the even one. */
  lemma HalvesRoundToEven(n: int)
    ensures Round(n as real) == n
    ensures Round((2 * n) as real + 0.5) == 2 * n && Round((2 * n) as real + 1.5) == 2 * n + 2
  {
    assert ((2 * n) as real + 0.5).Floor == 2 * n && ((2 * n) as real + 1.5).Floor == 2 * n + 1;
  }

  /** The locked rate, or the legacy ten cents. */
  function HourlyCents(row: Row): nat { if row.rateCents == 0 then 10 else row.rateCents }

  function Instances(row: Row): nat { if row.readyInstances == 0 then 1 else row.readyInstances }

  function MilliCentsPerHour(row: Row): nat { HourlyCents(row) * 1000 * row.gpus * Instances(row) }

  function ExactMilliCents(row: Row, seconds: real): real { MilliCentsPerHour(row) as real * seconds / 3600.0 }

  lemma ExactNonNegative(row: Row, seconds: real)
    requires seconds >= 0.0
    ensures ExactMilliCents(row, seconds) >= 0.0
  {
    var rate := MilliCentsPerHour(row) as real;
    assert rate >= 0.0;
    assert rate * seconds >= 0.0;
  }

  function Accrual(row: Row, seconds: real): (m: nat)
    requires seconds >= 0.0
    ensures -0.5 <= m as real - ExactMilliCents(row, seconds) <= 0.5
  {
    ExactNonNegative(row, seconds);
    RoundIsNearest(ExactMilliCents(row, seconds));
    Round(ExactMilliCents(row, seconds))
  }

  predicate BilledByHour(row: Row) { row.owner.Some? && row.kind != CatalogModel }

  /** accrue_metering: whole cents to debit, and the row with the rest. */
  function Accrue(remainder: nat, add: nat): (r: (nat, nat))
    ensures 1000 * r.0 + r.1 == remainder + add && r.1 < 1000
  {
    var whole := (remainder + add) / 1000;
    (whole, remainder + add - whole * 1000)
  }

  /** debit_user_to_floor: what is taken of what was asked. */
  function Take(balance: int, amount: nat): (take: nat)
    ensures take <= amount
    ensures balance < 0 ==> take == 0
    ensures balance >= 0 ==> take <= balance
    ensures take < amount ==> balance - take <= 0
  {
    Min(amount, Max(0, balance))
  }

  /** A pass accrues on the row: the new row, and the whole cents to debit. */
  function AccrueRow(row: Row, seconds: real): (r: (Row, nat))
    requires seconds >= 0.0
    ensures r.0.owner == row.owner
  {
    var add := Accrual(row, seconds);
    var (whole, rest) := Accrue(row.remainder, add);
    var b := row.books;
    (row.(remainder := rest, books := b.(
       accrued := b.accrued + add, stretches := b.stretches + [Stretch(MilliCentsPerHour(row), seconds)])),
     whole)
  }

  /** Cents that could not be debited go back onto the row, which is suspended. */
  function CarryBack(row: Row, cents: nat): Row {
    row.(remainder := row.remainder + cents * 1000, ready := false, books := row.books.(short := true))
  }

  datatype Charged = Charged(row: Row, take: nat)

  /** What a pass does to one READY row whose owner has `balance` (None: the owner's
      account row is missing). */
  function Charge(row: Row, balance: Option<int>, cycle: real, silent: bool, now: real): Charged
    requires cycle >= 0.0
  {
    if !BilledByHour(row) || silent then Charged(row, 0)
    else if row.since.None? && row.kind == PrivateModel then Charged(row.(since := Some(now)), 0)
    else
      var (accrued, whole) := AccrueRow(row, BilledSeconds(row, cycle, now));
      if whole == 0 || balance.None? then Charged(accrued, 0)
      else
        var take := Take(balance.value, whole);
        Charged(if take == whole then accrued else CarryBack(accrued, whole - take), take)
  }

  /** How many whole cents this pass would debit. */
  function WholeCents(row: Row, cycle: real, now: real): nat
    requires cycle >= 0.0
  {
    Accrue(row.remainder, Accrual(row, BilledSeconds(row, cycle, now))).0
  }

  predicate Accrues(row: Row, silent: bool) {
    BilledByHour(row) && !silent && !(row.since.None? && row.kind == PrivateModel)
  }

  /** Conservation for one pass: nothing accrued is lost exactly when the owner's
      account exists or there was no whole cent to take from it. */
  lemma ChargeConservesIff(row: Row, balance: Option<int>, cycle: real, silent: bool, now: real)
    requires cycle >= 0.0
    ensures var c := Charge(row, balance, cycle, silent, now);
            c.row.books.accrued - row.books.accrued == 1000 * c.take + c.row.remainder - row.remainder <==>
            balance.Some? || !Accrues(row, silent) || WholeCents(row, cycle, now) == 0
  {
    hide Accrual, BilledSeconds, ExactMilliCents;
  }

  const NO_BOOKS := Books(0, 0, [], false, 0.0, 0.0)

  /** A case of it: an hour at 40 cents whose owner has no account row accrues 40000
      millicents, debits nothing and keeps nothing. */
  lemma MissingOwnerLosesCents()
    ensures var row := Row(Some("gone"), Rental, 1, 40, 1, true, 0.0, false, Some(0.0), 0, NO_BOOKS);
            var c := Charge(row, None, 3600.0, false, 3600.0);
            c.row.books.accrued == 40000 && c.take == 0 && c.row.remainder == 0
  {
    var row := Row(Some("gone"), Rental, 1, 40, 1, true, 0.0, false, Some(0.0), 0, NO_BOOKS);
    assert MilliCentsPerHour(row) == 40000;
    assert ExactMilliCents(row, 3600.0) == 40000.0;
    assert BilledSeconds(row, 3600.0, 3600.0) == 3600.0;
    assert Accrual(row, 3600.0) == 40000;
  }

  /** Accruing, debiting and carrying back are three transactions: a pass whose meter
      died after the first `done` of them. */
  function ChargeUpTo(row: Row, balance: Option<int>, cycle: real, silent: bool, now: real, done: nat): Charged
    requires cycle >= 0.0
  {
    if done == 0 then Charged(row, 0)
    else if !Accrues(row, silent) then Charge(row, balance, cycle, silent, now)
    else
      var (accrued, whole) := AccrueRow(row, BilledSeconds(row, cycle, now));
      if done == 1 || whole == 0 || balance.None? then Charged(accrued, 0)
      else
        var take := Take(balance.value, whole);
        Charged(if done == 2 || take == whole then accrued else CarryBack(accrued, whole - take), take)
  }

  /** Nothing accrued is lost exactly when the meter died before it accrued, there was no
      whole cent to take, or the owner's account exists and the meter got as far as the
      debit if the balance covers it, as far as carrying back if it does not. */
  lemma InterruptedChargeConservesIff(
      row: Row, balance: Option<int>, cycle: real, silent: bool, now: real, done: nat)
    requires cycle >= 0.0
    ensures var c, whole := ChargeUpTo(row, balance, cycle, silent, now, done), WholeCents(row, cycle, now);
            c.row.books.accrued - row.books.accrued == 1000 * c.take + c.row.remainder - row.remainder <==>
            || done == 0 || !Accrues(row, silent) || whole == 0
            || (balance.Some? && (if balance.value >= whole then done >= 2 else done >= 3))
    ensures done >= 3 ==>
              ChargeUpTo(row, balance, cycle, silent, now, done) == Charge(row, balance, cycle, silent, now)
  {
    hide Accrual, BilledSeconds, ExactMilliCents;
  }

  /** hourly_charge_cents: what a READY row is forecast to cost per hour. */
  function HourlyCharge(row: Row, silent: bool): Option<nat> {
    if !BilledByHour(row) then None
    else if silent then Some(0)
    else Some(HourlyCents(row) * (if row.gpus == 0 then 1 else row.gpus) * Instances(row))
  }

  /** Nothing for a deployment not billed by the hour, zero while its machine is silent, and
      else the rate for each GPU, one at least, of each instance, one at least. */
  lemma HourlyChargeIs(row: Row, silent: bool)
    ensures HourlyCharge(row, silent).None? <==> row.owner.None? || row.kind == CatalogModel
    ensures row.owner.Some? && row.kind != CatalogModel && silent ==> HourlyCharge(row, silent) == Some(0)
    ensures row.owner.Some? && row.kind != CatalogModel && !silent ==>
              HourlyCharge(row, silent) ==
              Some((if row.rateCents == 0 then 10 else row.rateCents) * Max(1, row.gpus) * Max(1, row.readyInstances))
  {
  }

  /** The forecast is the meter's own rate exactly when the workload asks for a GPU:
      one that asks for none is forecast as one and metered as none. */
  lemma ForecastIsTheMetersRateIff(row: Row)
    requires BilledByHour(row)
    ensures 1000 * HourlyCharge(row, false).value == MilliCentsPerHour(row) <==> row.gpus != 0
  {
    var h, g, i := HourlyCents(row), row.gpus, Instances(row);
    assert h * 1000 * g * i == 1000 * (h * g * i);
    if g == 0 {
      assert h * i >= 1 by { Product(h, i); }
    }
  }

  lemma Product(a: nat, b: nat)
    requires a >= 1 && b >= 1
    ensures a * b >= 1
  {
    assert a * b == (a - 1) * b + b;
  }

  /** The meter never takes a balance below zero, and suspends exactly when it
      could not take all of it. */
  lemma ChargeStopsAtFloor(row: Row, balance: int, cycle: real, silent: bool, now: real)
    requires cycle >= 0.0
    ensures var c := Charge(row, Some(balance), cycle, silent, now);
            balance - c.take >= Min(balance, 0) &&
            (c.row.ready != row.ready ==> !c.row.ready && balance - c.take <= 0 && c.row.remainder >= 1000)
  {
    hide Accrual, BilledSeconds, ExactMilliCents;
  }

  /** That is, when the whole cents due exceed the balance. */
  lemma SuspendsIff(row: Row, balance: int, cycle: real, silent: bool, now: real)
    requires cycle >= 0.0 && row.ready
    ensures !Charge(row, Some(balance), cycle, silent, now).row.ready <==>
            Accrues(row, silent) && WholeCents(row, cycle, now) > Max(0, balance)
  {
    hide Accrual, BilledSeconds, ExactMilliCents;
  }

  // --- The world of passes -------------------------------------------------------

  datatype EntryKind = Usage | Storage | TopUp

  datatype Entry = Entry(user: string, cents: int, balanceAfter: int, kind: EntryKind, reference: string)

  datatype World = World(
    now: real, lastPass: real, rows: map<string, Row>, balances: map<string, int>, ledger: seq<Entry>)

  function BalanceOf(w: World, owner: Option<string>): Option<int> {
    if owner.Some? && owner.value in w.balances then Some(w.balances[owner.value]) else None
  }

  /** Write a ledger entry and the balance it leads to. */
  function Post(w: World, user: string, cents: int, kind: EntryKind, reference: string): World
    requires user in w.balances
  {
    var b := w.balances[user] + cents;
    w.(balances := w.balances[user := b], ledger := w.ledger + [Entry(user, cents, b, kind, reference)])
  }

  function MeterOne(w: World, d: string, cycle: real, silent: set<string>): World
    requires cycle >= 0.0
  {
    if d !in w.rows then w
    else
      var row := w.rows[d];
      var balance := BalanceOf(w, row.owner);
      var c := Charge(row, balance, cycle, d in silent, w.now);
      var charged := w.(rows := w.rows[d := c.row]);
      if c.take > 0 && balance.Some? then Post(charged, row.owner.value, -(c.take as int), Usage, d) else charged
  }

  function MeterAll(w: World, ids: seq<string>, cycle: real, silent: set<string>): World
    requires cycle >= 0.0
  {
    if ids == [] then w else MeterOne(MeterAll(w, ids[..|ids| - 1], cycle, silent), ids[|ids| - 1], cycle, silent)
  }

  /** What metering this row would debit now. */
  function Debit(w: World, d: string, cycle: real, silent: set<string>): nat
    requires cycle >= 0.0
  {
    if d !in w.rows then 0
    else Charge(w.rows[d], BalanceOf(w, w.rows[d].owner), cycle, d in silent, w.now).take
  }

  /** Cents debited by a pass, for the rows it debited. */
  function Debits(w: World, ids: seq<string>, cycle: real, silent: set<string>): map<string, nat>
    requires cycle >= 0.0
  {
    if ids == [] then map[]
    else
      var front, d := ids[..|ids| - 1], ids[|ids| - 1];
      var cents := Debit(MeterAll(w, front, cycle, silent), d, cycle, silent);
      if cents > 0 then Debits(w, front, cycle, silent)[d := cents] else Debits(w, front, cycle, silent)
  }

  /** The service's view of its tables; a pass rewrites rows, balances and ledger. */
  class Meter {
    var rows: map<string, Row>
    var balances: map<string, int>
    var ledger: seq<Entry>

    ghost function View(now: real, lastPass: real): World
      reads this
    {
      World(now, lastPass, rows, balances, ledger)
    }

    constructor (rows: map<string, Row>, balances: map<string, int>, ledger: seq<Entry>)
      ensures this.rows == rows && this.balances == balances && this.ledger == ledger
    {
      this.rows, this.balances, this.ledger := rows, balances, ledger;
    }

    /** `ids` are the READY rows as listed when the pass began. */
    method MeterUsage(ids: seq<string>, elapsed: Option<real>, silent: set<string>, now: real, ghost lastPass: real)
      returns (debited: map<string, nat>)
      modifies this
      ensures View(now, lastPass) == MeterAll(old(View(now, lastPass)), ids, CycleSeconds(elapsed), silent)
      ensures debited == Debits(old(View(now, lastPass)), ids, CycleSeconds(elapsed), silent)
    {
      var cycle := CycleSeconds(elapsed);
      debited := map[];
      for i := 0 to |ids|
        invariant View(now, lastPass) == MeterAll(old(View(now, lastPass)), ids[..i], cycle, silent)
        invariant debited == Debits(old(View(now, lastPass)), ids[..i], cycle, silent)
      {
        assert ids[..i + 1][..i] == ids[..i];
        hide Charge, CycleSeconds, Debit;
        var take := MeterRow(ids[i], cycle, silent, now, lastPass);
        if take > 0 {
          debited := debited[ids[i] := take];
        }
      }
      assert ids[..|ids|] == ids;
    }

    method MeterRow(d: string, cycle: real, silent: set<string>, now: real, ghost lastPass: real) returns (take: nat)
      requires cycle >= 0.0
      modifies this
      ensures View(now, lastPass) == MeterOne(old(View(now, lastPass)), d, cycle, silent)
      ensures take == Debit(old(View(now, lastPass)), d, cycle, silent)
    {
      hide BilledSeconds, AccrueRow, CarryBack;
      if d !in rows {
        return 0;
      }
      var row := rows[d];
      if !BilledByHour(row) || d in silent {
        assert rows == rows[d := row];
        return 0;
      }
      if row.since.None? && row.kind == PrivateModel {
        rows := rows[d := row.(since := Some(now))];
        return 0;
      }
      var whole: nat;
      row, whole := AccrueRow(row, BilledSeconds(row, cycle, now)).0, AccrueRow(row, BilledSeconds(row, cycle, now)).1;
      rows := rows[d := row];
      var user := rows[d].owner.value;
      if whole == 0 || user !in balances {
        return 0;
      }
      take := Take(balances[user], whole);
      if take > 0 {
        var left := balances[user] - take;
        balances := balances[user := left];
        ledger := ledger + [Entry(user, -(take as int), left, Usage, d)];
      }
      if take < whole {
        rows := rows[d := CarryBack(row, whole - take)];
      }
    }
  }
}
