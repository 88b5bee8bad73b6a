/**
  Statements and summaries: an account's ledger rows of a period, grouped in
  several ways that must all add up to the same money. Times are seconds; a day is
  a UTC day number.
 */
module Statements {
  import opened Common

  // --- Running totals under keys -------------------------------------------------------

  /** A dictionary of sums, in order of first use. */
  type Tally<K> = seq<(K, int)>

  /** d[k] = d.get(k, 0) + v */
  function Bump<K(==)>(t: Tally<K>, k: K, v: int): Tally<K> {
    if t == [] then [(k, v)]
    else if t[0].0 == k then [(k, t[0].1 + v)] + t[1..]
    else [t[0]] + Bump(t[1..], k, v)
  }

  function Total<K(==)>(t: Tally<K>): int { if t == [] then 0 else t[0].1 + Total(t[1..]) }

  function Look<K(==)>(t: Tally<K>, k: K): int {
    if t == [] then 0 else if t[0].0 == k then t[0].1 else Look(t[1..], k)
  }

  /** The sum over the keys in one column. */
  function ColumnTotal<A(==), C(==)>(t: Tally<(A, C)>, column: C): int {
    if t == [] then 0 else (if t[0].0.1 == column then t[0].1 else 0) + ColumnTotal(t[1..], column)
  }

  lemma {:induction false} BumpTotal<K>(t: Tally<K>, k: K, v: int)
    ensures Total(Bump(t, k, v)) == Total(t) + v
  {
    if t == [] {
      assert Bump(t, k, v)[1..] == [];
    } else if t[0].0 != k {
      BumpTotal(t[1..], k, v);
      assert Bump(t, k, v)[1..] == Bump(t[1..], k, v);
    } else {
      assert Bump(t, k, v)[1..] == t[1..];
    }
  }

  lemma {:induction false} BumpLook<K>(t: Tally<K>, k: K, v: int, other: K)
    ensures Look(Bump(t, k, v), other) == Look(t, other) + (if other == k then v else 0)
  {
    if t == [] {
      assert Bump(t, k, v)[1..] == [];
    } else if t[0].0 != k {
      BumpLook(t[1..], k, v, other);
      assert Bump(t, k, v)[1..] == Bump(t[1..], k, v);
    } else {
      assert Bump(t, k, v)[1..] == t[1..];
    }
  }

  lemma {:induction false} BumpColumn<A, C>(t: Tally<(A, C)>, k: (A, C), v: int, column: C)
    ensures ColumnTotal(Bump(t, k, v), column) == ColumnTotal(t, column) + (if k.1 == column then v else 0)
  {
    if t == [] {
      assert Bump(t, k, v)[1..] == [];
    } else if t[0].0 != k {
      BumpColumn(t[1..], k, v, column);
      assert Bump(t, k, v)[1..] == Bump(t[1..], k, v);
    } else {
      assert Bump(t, k, v)[1..] == t[1..];
    }
  }

  // --- The rows of a period ----------------------------------------------------------------

  datatype Row = Row(ref: string, kind: string, description: string, cents: int, at: int)

  predicate Metered(r: Row) { r.kind in {"usage", "storage", "inference"} }

  predicate Within(r: Row, since: int, until: int) { since <= r.at < until }

  function Day(at: int): int { at / 86400 }

  /** Shared-model requests are grouped per day only. */
  type FineKey = (Option<string>, string, int, string)

  function KeyOf(r: Row): FineKey {
    if r.kind == "inference" then (None, r.kind, Day(r.at), "") else (Some(r.ref), r.kind, Day(r.at), r.description)
  }

  function Sum(rows: seq<Row>): int { if rows == [] then 0 else Sum(rows[..|rows| - 1]) + rows[|rows| - 1].cents }

  /** The sum of an account's rows in [since, until). */
  function SumWithin(ledger: seq<Row>, since: int, until: int): int {
    if ledger == [] then 0
    else SumWithin(ledger[..|ledger| - 1], since, until) +
         (if Within(ledger[|ledger| - 1], since, until) then ledger[|ledger| - 1].cents else 0)
  }

  function SumBefore(ledger: seq<Row>, time: int): int {
    if ledger == [] then 0
    else SumBefore(ledger[..|ledger| - 1], time) +
         (if ledger[|ledger| - 1].at < time then ledger[|ledger| - 1].cents else 0)
  }

  lemma {:induction false} SumSplits(ledger: seq<Row>, since: int, until: int)
    requires since <= until
    ensures SumBefore(ledger, until) == SumBefore(ledger, since) + SumWithin(ledger, since, until)
  {
    if ledger != [] {
      SumSplits(ledger[..|ledger| - 1], since, until);
    }
  }

  datatype Period = Period(metered: Tally<FineKey>, entries: seq<Row>, opening: int, closing: int)

  /** The rows of a period that are listed one by one. */
  function EntriesOf(ledger: seq<Row>, since: int, until: int): seq<Row> {
    if ledger == [] then []
    else
      var r := ledger[|ledger| - 1];
      EntriesOf(ledger[..|ledger| - 1], since, until) + (if Within(r, since, until) && !Metered(r) then [r] else [])
  }

  /** What a period's metered rows with this key add up to. */
  function MeteredUnder(ledger: seq<Row>, since: int, until: int, k: FineKey): int {
    if ledger == [] then 0
    else
      var r := ledger[|ledger| - 1];
      MeteredUnder(ledger[..|ledger| - 1], since, until, k) +
      (if Within(r, since, until) && Metered(r) && KeyOf(r) == k then r.cents else 0)
  }

  /** The rows taken so far, summed per key or listed, are those of the period. */
  ghost predicate RowsRight(metered: Tally<FineKey>, entries: seq<Row>, ledger: seq<Row>, since: int, until: int) {
    && Total(metered) + Sum(entries) == SumWithin(ledger, since, until)
    && entries == EntriesOf(ledger, since, until)
    && forall k :: Look(metered, k) == MeteredUnder(ledger, since, until, k)
  }

  lemma MeteredTaken(metered: Tally<FineKey>, entries: seq<Row>, front: seq<Row>, r: Row, since: int, until: int)
    requires RowsRight(metered, entries, front, since, until) && Within(r, since, until) && Metered(r)
    ensures RowsRight(Bump(metered, KeyOf(r), r.cents), entries, front + [r], since, until)
  {
    hide Bump, Look, Total, KeyOf, Metered, Within;
    assert (front + [r])[..|front|] == front;
    BumpTotal(metered, KeyOf(r), r.cents);
    forall k ensures Look(Bump(metered, KeyOf(r), r.cents), k) == MeteredUnder(front + [r], since, until, k) {
      BumpLook(metered, KeyOf(r), r.cents, k);
    }
  }

  lemma OtherTaken(metered: Tally<FineKey>, entries: seq<Row>, front: seq<Row>, r: Row, since: int, until: int)
    requires RowsRight(metered, entries, front, since, until) && !(Within(r, since, until) && Metered(r))
    ensures RowsRight(metered, if Within(r, since, until) then entries + [r] else entries, front + [r], since, until)
  {
    hide Look, Total, KeyOf, Metered, Within;
    assert (front + [r])[..|front|] == front;
    assert (entries + [r])[..|entries|] == entries;
  }

  lemma SumsSnoc(front: seq<Row>, r: Row, since: int, until: int)
    ensures Sum(front + [r]) == Sum(front) + r.cents
    ensures SumWithin(front + [r], since, until) ==
            SumWithin(front, since, until) + (if Within(r, since, until) then r.cents else 0)
    ensures SumBefore(front + [r], until) == SumBefore(front, until) + (if r.at < until then r.cents else 0)
  {
    assert (front + [r])[..|front|] == front;
  }

  /** What one more row, on day `day`, does to a period: nothing outside of it; usage and
      storage are summed per deployment, day and text, requests per day; all else is listed. */
  lemma RowTaken(ledger: seq<Row>, r: Row, since: int, until: int, day: int, k: FineKey)
    requires 86400 * day <= r.at < 86400 * (day + 1)
    ensures r.at < since || r.at >= until ==>
              && EntriesOf(ledger + [r], since, until) == EntriesOf(ledger, since, until)
              && MeteredUnder(ledger + [r], since, until, k) == MeteredUnder(ledger, since, until, k)
    ensures since <= r.at < until && r.kind in {"usage", "storage", "inference"} ==>
              && EntriesOf(ledger + [r], since, until) == EntriesOf(ledger, since, until)
              && MeteredUnder(ledger + [r], since, until, k) == MeteredUnder(ledger, since, until, k) +
                   (if k == (if r.kind == "inference" then (None, "inference", day, "")
                             else (Some(r.ref), r.kind, day, r.description))
                    then r.cents else 0)
    ensures since <= r.at < until && r.kind !in {"usage", "storage", "inference"} ==>
              && EntriesOf(ledger + [r], since, until) == EntriesOf(ledger, since, until) + [r]
              && MeteredUnder(ledger + [r], since, until, k) == MeteredUnder(ledger, since, until, k)
  {
    assert (ledger + [r])[..|ledger|] == ledger;
  }

  /** spending_rows: the metered rows summed per key, the others one by one, and the
      balances at both ends, worked back from today's. */
  method SpendingRows(ledger: seq<Row>, since: int, until: int, balanceNow: int) returns (p: Period)
    requires since <= until
    ensures RowsRight(p.metered, p.entries, ledger, since, until)
    ensures p.closing - p.opening == SumWithin(ledger, since, until)
    ensures balanceNow == Sum(ledger) ==> p.opening == SumBefore(ledger, since) && p.closing == SumBefore(ledger, until)
  {
    var metered: Tally<FineKey> := [];
    var entries: seq<Row> := [];
    var later, inside := 0, 0;
    for k := 0 to |ledger|
      invariant RowsRight(metered, entries, ledger[..k], since, until)
      invariant inside == SumWithin(ledger[..k], since, until)
      invariant Sum(ledger[..k]) - later == SumBefore(ledger[..k], until)
    {
      var r := ledger[k];
      assert ledger[..k + 1] == ledger[..k] + [r];
      SumsSnoc(ledger[..k], r, since, until);
      hide RowsRight, SumWithin, SumBefore, Sum, Bump, KeyOf, Metered;
      if Within(r, since, until) {
        inside := inside + r.cents;
        if Metered(r) {
          MeteredTaken(metered, entries, ledger[..k], r, since, until);
          metered := Bump(metered, KeyOf(r), r.cents);
        } else {
          OtherTaken(metered, entries, ledger[..k], r, since, until);
          entries := entries + [r];
        }
      } else {
        OtherTaken(metered, entries, ledger[..k], r, since, until);
        if r.at >= until {
          later := later + r.cents;
        }
      }
    }
    assert ledger[..|ledger|] == ledger;
    SumSplits(ledger, since, until);
    var closing := balanceNow - later;
    p := Period(metered, entries, closing - inside, closing);
  }

  // --- One group per deployment, kind and day -------------------------------------------------

  type GroupKey = (Option<string>, string, int)

  function Charged(metered: Tally<FineKey>): Tally<GroupKey> {
    if metered == [] then []
    else
      var (k, cents) := metered[|metered| - 1];
      Bump(Charged(metered[..|metered| - 1]), (k.0, k.1, k.2), -cents)
  }

  /** What the rows with a group's key add up to. */
  function ChargedUnder(metered: Tally<FineKey>, g: GroupKey): int {
    if metered == [] then 0
    else
      var (k, cents) := metered[|metered| - 1];
      ChargedUnder(metered[..|metered| - 1], g) - (if (k.0, k.1, k.2) == g then cents else 0)
  }

  lemma {:induction false} TotalSnoc<K>(t: Tally<K>, e: (K, int))
    ensures Total(t + [e]) == Total(t) + e.1
  {
    if t == [] {
      assert t + [e] == [e] && [e][1..] == [];
    } else {
      TotalSnoc(t[1..], e);
      assert (t + [e])[1..] == t[1..] + [e];
    }
  }

  /** Every group holds exactly its rows' charge, and together they hold all of it. */
  lemma {:induction false} GroupsConserve(metered: Tally<FineKey>, g: GroupKey)
    ensures Look(Charged(metered), g) == ChargedUnder(metered, g)
    ensures Total(Charged(metered)) == -Total(metered)
  {
    if metered != [] {
      var front, e := metered[..|metered| - 1], metered[|metered| - 1];
      GroupsConserve(front, g);
      assert metered == front + [e];
      TotalSnoc(front, e);
      BumpLook(Charged(front), (e.0.0, e.0.1, e.0.2), -e.1, g);
      BumpTotal(Charged(front), (e.0.0, e.0.1, e.0.2), -e.1);
    }
  }

  method Groups(metered: Tally<FineKey>) returns (groups: Tally<GroupKey>)
    ensures groups == Charged(metered)
    ensures Total(groups) == -Total(metered)
    ensures forall g :: Look(groups, g) == ChargedUnder(metered, g)
  {
    groups := [];
    for i := 0 to |metered|
      invariant groups == Charged(metered[..i])
    {
      assert metered[..i + 1][..i] == metered[..i];
      var (k, cents) := metered[i];
      groups := Bump(groups, (k.0, k.1, k.2), -cents);
    }
    assert metered[..|metered|] == metered;
    GroupsConserve(metered, (None, "", 0));
    forall g ensures Look(groups, g) == ChargedUnder(metered, g) { GroupsConserve(metered, g); }
  }

  // --- The summary ---------------------------------------------------------------------------

  datatype Column = ChargedColumn | ToppedUp | Adjustments | GpuRentals | PrivateModels | Storage | SharedModels

  function Category(kind: string, model: bool): Column {
    if kind == "storage" then Storage
    else if kind == "inference" then SharedModels
    else if model then PrivateModels else GpuRentals
  }

  function CategoryOf(group: GroupKey, models: set<string>): Column {
    Category(group.1, group.0.Some? && group.0.value in models)
  }

  datatype Part = GpuPart | StoragePart

  datatype Summary = Summary(
    days: Tally<(int, Column)>,                          // per day and column
    deployments: Tally<(Option<string>, Part)>,          // per deployment
    shared: int)

  function Categories<A(==)>(days: Tally<(A, Column)>): int {
    ColumnTotal(days, GpuRentals) + ColumnTotal(days, PrivateModels) + ColumnTotal(days, Storage) +
      ColumnTotal(days, SharedModels)
  }

  function DayCategories(days: Tally<(int, Column)>, day: int): int {
    Look(days, (day, GpuRentals)) + Look(days, (day, PrivateModels)) + Look(days, (day, Storage)) +
      Look(days, (day, SharedModels))
  }

  /** The three ways to add up the charges agree: by day, by category, and by
      deployment plus shared models; on every single day, too. */
  ghost predicate Agrees(s: Summary, charged: int) {
    && ColumnTotal(s.days, ChargedColumn) == charged
    && Categories(s.days) == charged
    && Total(s.deployments) + s.shared == charged
    && forall day :: Look(s.days, (day, ChargedColumn)) == DayCategories(s.days, day)
  }

  /** Booking a charge on its day, under its category. */
  function Book(days: Tally<(int, Column)>, day: int, category: Column, cents: int): Tally<(int, Column)> {
    Bump(Bump(days, (day, category), cents), (day, ChargedColumn), cents)
  }

  lemma BookColumn(days: Tally<(int, Column)>, day: int, category: Column, cents: int, column: Column)
    requires category != ChargedColumn
    ensures ColumnTotal(Book(days, day, category, cents), column) ==
            ColumnTotal(days, column) + (if column == category || column == ChargedColumn then cents else 0)
  {
    BumpColumn(days, (day, category), cents, column);
    BumpColumn(Bump(days, (day, category), cents), (day, ChargedColumn), cents, column);
  }

  lemma BookLook(days: Tally<(int, Column)>, day: int, category: Column, cents: int, k: (int, Column))
    requires category != ChargedColumn
    ensures Look(Book(days, day, category, cents), k) ==
            Look(days, k) + (if k == (day, category) || k == (day, ChargedColumn) then cents else 0)
  {
    BumpLook(days, (day, category), cents, k);
    BumpLook(Bump(days, (day, category), cents), (day, ChargedColumn), cents, k);
  }

  lemma BookAgrees(s: Summary, charged: int, day: int, category: Column, cents: int, after: Summary)
    requires Agrees(s, charged) && category in {GpuRentals, PrivateModels, Storage, SharedModels}
    requires after.days == Book(s.days, day, category, cents)
    requires Total(after.deployments) + after.shared == Total(s.deployments) + s.shared + cents
    ensures Agrees(after, charged + cents)
    ensures ColumnTotal(after.days, ToppedUp) == ColumnTotal(s.days, ToppedUp)
    ensures ColumnTotal(after.days, Adjustments) == ColumnTotal(s.days, Adjustments)
  {
    hide Book, ColumnTotal, Look;
    BookColumn(s.days, day, category, cents, ChargedColumn);
    BookColumn(s.days, day, category, cents, ToppedUp);
    BookColumn(s.days, day, category, cents, Adjustments);
    BookColumn(s.days, day, category, cents, GpuRentals);
    BookColumn(s.days, day, category, cents, PrivateModels);
    BookColumn(s.days, day, category, cents, Storage);
    BookColumn(s.days, day, category, cents, SharedModels);
    forall d ensures Look(after.days, (d, ChargedColumn)) == DayCategories(after.days, d) {
      BookLook(s.days, day, category, cents, (d, ChargedColumn));
      BookLook(s.days, day, category, cents, (d, GpuRentals));
      BookLook(s.days, day, category, cents, (d, PrivateModels));
      BookLook(s.days, day, category, cents, (d, Storage));
      BookLook(s.days, day, category, cents, (d, SharedModels));
    }
  }

  predicate IsCredit(r: Row) { r.kind in {"topup", "bonus"} }

  /** The entries that are credits, or those that are not. */
  function SumOf(entries: seq<Row>, credits: bool): int {
    if entries == [] then 0
    else SumOf(entries[..|entries| - 1], credits) +
         (if IsCredit(entries[|entries| - 1]) == credits then entries[|entries| - 1].cents else 0)
  }

  lemma {:induction false} CreditsAndOthers(entries: seq<Row>)
    ensures SumOf(entries, true) + SumOf(entries, false) == Sum(entries)
  {
    if entries != [] {
      CreditsAndOthers(entries[..|entries| - 1]);
    }
  }

  lemma EntryAgrees(days: Tally<(int, Column)>, day: int, column: Column, cents: int)
    requires Agrees(Summary(days, [], 0), 0) && column in {ToppedUp, Adjustments}
    ensures Agrees(Summary(Bump(days, (day, column), cents), [], 0), 0)
  {
    hide Bump, ColumnTotal, Look;
    var after := Bump(days, (day, column), cents);
    BumpColumn(days, (day, column), cents, ChargedColumn);
    BumpColumn(days, (day, column), cents, GpuRentals);
    BumpColumn(days, (day, column), cents, PrivateModels);
    BumpColumn(days, (day, column), cents, Storage);
    BumpColumn(days, (day, column), cents, SharedModels);
    forall d ensures Look(after, (d, ChargedColumn)) == DayCategories(after, d) {
      BumpLook(days, (day, column), cents, (d, ChargedColumn));
      BumpLook(days, (day, column), cents, (d, GpuRentals));
      BumpLook(days, (day, column), cents, (d, PrivateModels));
      BumpLook(days, (day, column), cents, (d, Storage));
      BumpLook(days, (day, column), cents, (d, SharedModels));
    }
  }

  function EntryColumn(r: Row): Column { if IsCredit(r) then ToppedUp else Adjustments }

  /** What the entries of one day add up to, top-ups and others apart. */
  function EntriesOn(entries: seq<Row>, day: int, column: Column): int {
    if entries == [] then 0
    else
      var e := entries[|entries| - 1];
      EntriesOn(entries[..|entries| - 1], day, column) +
        (if Day(e.at) == day && EntryColumn(e) == column then e.cents else 0)
  }

  ghost predicate EntriesBooked(days: Tally<(int, Column)>, entries: seq<Row>) {
    forall day, column :: Look(days, (day, column)) == EntriesOn(entries, day, column)
  }

  lemma EntryBooked(days: Tally<(int, Column)>, front: seq<Row>, e: Row)
    requires EntriesBooked(days, front)
    ensures EntriesBooked(Bump(days, (Day(e.at), EntryColumn(e)), e.cents), front + [e])
  {
    hide Bump, Look, EntryColumn, Day;
    assert (front + [e])[..|front|] == front;
    forall day, column ensures Look(Bump(days, (Day(e.at), EntryColumn(e)), e.cents), (day, column)) ==
           EntriesOn(front + [e], day, column) {
      BumpLook(days, (Day(e.at), EntryColumn(e)), e.cents, (day, column));
    }
  }

  lemma {:induction false} OnlyEntryColumns(entries: seq<Row>, day: int, column: Column)
    requires column != ToppedUp && column != Adjustments
    ensures EntriesOn(entries, day, column) == 0
  {
    if entries != [] {
      OnlyEntryColumns(entries[..|entries| - 1], day, column);
    }
  }

  /** Top-ups and other entries, on their days; they touch no charge. */
  method BookEntries(entries: seq<Row>) returns (days: Tally<(int, Column)>)
    ensures ColumnTotal(days, ToppedUp) == SumOf(entries, true)
    ensures ColumnTotal(days, Adjustments) == SumOf(entries, false)
    ensures Agrees(Summary(days, [], 0), 0)
    ensures EntriesBooked(days, entries)
  {
    days := [];
    for i := 0 to |entries|
      invariant ColumnTotal(days, ToppedUp) == SumOf(entries[..i], true)
      invariant ColumnTotal(days, Adjustments) == SumOf(entries[..i], false)
      invariant Agrees(Summary(days, [], 0), 0)
      invariant EntriesBooked(days, entries[..i])
    {
      assert entries[..i + 1][..i] == entries[..i];
      var e := entries[i];
      var column := EntryColumn(e);
      assert entries[..i + 1] == entries[..i] + [e];
      EntryBooked(days, entries[..i], e);
      hide Bump, ColumnTotal, Agrees, Day, EntriesBooked;
      BumpColumn(days, (Day(e.at), column), e.cents, ToppedUp);
      BumpColumn(days, (Day(e.at), column), e.cents, Adjustments);
      EntryAgrees(days, Day(e.at), column, e.cents);
      days := Bump(days, (Day(e.at), column), e.cents);
    }
    assert entries[..|entries|] == entries;
  }

  /** What one more entry adds to its day: to the top-ups if it is one or a bonus, else to
      the adjustments. */
  lemma EntryAdds(entries: seq<Row>, e: Row, day: int, other: int)
    requires 86400 * day <= e.at < 86400 * (day + 1)
    ensures var credit := e.kind == "topup" || e.kind == "bonus";
            && EntriesOn(entries + [e], other, ToppedUp) ==
                 EntriesOn(entries, other, ToppedUp) + (if other == day && credit then e.cents else 0)
            && EntriesOn(entries + [e], other, Adjustments) ==
                 EntriesOn(entries, other, Adjustments) + (if other == day && !credit then e.cents else 0)
            && SumOf(entries + [e], true) == SumOf(entries, true) + (if credit then e.cents else 0)
  {
    assert (entries + [e])[..|entries|] == entries;
  }

  predicate IsCategory(c: Column) { c == GpuRentals || c == PrivateModels || c == Storage || c == SharedModels }

  /** What the groups of one day and category charge. */
  function OnDay(groups: Tally<GroupKey>, models: set<string>, day: int, category: Column): int {
    if groups == [] then 0
    else
      var (g, cents) := groups[|groups| - 1];
      OnDay(groups[..|groups| - 1], models, day, category) +
        (if g.2 == day && CategoryOf(g, models) == category then cents else 0)
  }

  function PartOf(g: GroupKey): Part { if g.1 == "storage" then StoragePart else GpuPart }

  /** What a deployment's groups charge, storage apart. */
  function OfDeployment(groups: Tally<GroupKey>, ref: Option<string>, part: Part): int {
    if groups == [] then 0
    else
      var (g, cents) := groups[|groups| - 1];
      OfDeployment(groups[..|groups| - 1], ref, part) +
      (if g.1 != "inference" && g.0 == ref && PartOf(g) == part then cents else 0)
  }

  function OfShared(groups: Tally<GroupKey>): int {
    if groups == [] then 0
    else
      var (g, cents) := groups[|groups| - 1];
      OfShared(groups[..|groups| - 1]) + (if g.1 == "inference" then cents else 0)
  }

  /** Every figure of the summary is the sum of exactly the groups it is about. */
  ghost predicate ChargesBooked(s: Summary, groups: Tally<GroupKey>, models: set<string>) {
    && (forall day, c :: IsCategory(c) ==> Look(s.days, (day, c)) == OnDay(groups, models, day, c))
    && (forall ref, part :: Look(s.deployments, (ref, part)) == OfDeployment(groups, ref, part))
    && s.shared == OfShared(groups)
  }

  /** A group added to the summary. */
  function AddGroup(s: Summary, g: GroupKey, cents: int, models: set<string>): Summary {
    var days := Book(s.days, g.2, CategoryOf(g, models), cents);
    if g.1 == "inference" then s.(days := days, shared := s.shared + cents)
    else s.(days := days, deployments := Bump(s.deployments, (g.0, PartOf(g)), cents))
  }

  /** Where a group's charge is shown: on its day, under one category that its kind and
      its deployment decide, and with its deployment or, for requests, with the shared models. */
  lemma GroupAdds(s: Summary, ref: Option<string>, kind: string, day: int, cents: int, models: set<string>,
      other: int, column: Column, part: Part)
    ensures var t := AddGroup(s, (ref, kind, day), cents, models);
            var ofModel := exists m :: m in models && ref == Some(m);
            && Look(t.days, (other, column)) == Look(s.days, (other, column)) +
                 (if other == day &&
                     (|| column == ChargedColumn
                      || (column == Storage && kind == "storage")
                      || (column == SharedModels && kind == "inference")
                      || (column == PrivateModels && kind != "storage" && kind != "inference" && ofModel)
                      || (column == GpuRentals && kind != "storage" && kind != "inference" && !ofModel))
                  then cents else 0)
            && t.shared == s.shared + (if kind == "inference" then cents else 0)
            && Look(t.deployments, (ref, part)) == Look(s.deployments, (ref, part)) +
                 (if (part == StoragePart && kind == "storage") ||
                     (part == GpuPart && kind != "storage" && kind != "inference")
                  then cents else 0)
  {
    var g: GroupKey := (ref, kind, day);
    hide Book, Bump, Look;
    BookLook(s.days, day, CategoryOf(g, models), cents, (other, column));
    BumpLook(s.deployments, (ref, PartOf(g)), cents, (ref, part));
  }

  lemma GroupBooked(s: Summary, front: Tally<GroupKey>, g: GroupKey, cents: int, models: set<string>)
    requires ChargesBooked(s, front, models)
    ensures ChargesBooked(AddGroup(s, g, cents, models), front + [(g, cents)], models)
  {
    hide Book, Look, Bump, PartOf;
    var groups := front + [(g, cents)];
    var after := AddGroup(s, g, cents, models);
    assert groups[..|front|] == front;
    forall day, c | IsCategory(c) ensures Look(after.days, (day, c)) == OnDay(groups, models, day, c) {
      BookLook(s.days, g.2, CategoryOf(g, models), cents, (day, c));
    }
    forall ref, part ensures Look(after.deployments, (ref, part)) == OfDeployment(groups, ref, part) {
      BumpLook(s.deployments, (g.0, PartOf(g)), cents, (ref, part));
    }
  }

  lemma OtherColumnsKept(s: Summary, g: GroupKey, cents: int, models: set<string>, day: int, column: Column)
    requires column == ToppedUp || column == Adjustments
    ensures Look(AddGroup(s, g, cents, models).days, (day, column)) == Look(s.days, (day, column))
  {
    BookLook(s.days, g.2, CategoryOf(g, models), cents, (day, column));
  }

  /** Top-ups and adjustments per day. */
  ghost predicate EntriesShown(s: Summary, entries: seq<Row>) {
    forall day :: Look(s.days, (day, ToppedUp)) == EntriesOn(entries, day, ToppedUp) &&
                  Look(s.days, (day, Adjustments)) == EntriesOn(entries, day, Adjustments)
  }

  lemma SummaryStep(
    s: Summary, booked: int, front: Tally<GroupKey>, g: GroupKey, cents: int, models: set<string>, entries: seq<Row>)
    requires Agrees(s, booked) && ChargesBooked(s, front, models) && EntriesShown(s, entries)
    ensures var after := AddGroup(s, g, cents, models);
            && Agrees(after, booked + cents) && ChargesBooked(after, front + [(g, cents)], models) &&
               EntriesShown(after, entries)
            && ColumnTotal(after.days, ToppedUp) == ColumnTotal(s.days, ToppedUp)
            && ColumnTotal(after.days, Adjustments) == ColumnTotal(s.days, Adjustments)
  {
    var after := AddGroup(s, g, cents, models);
    GroupBooked(s, front, g, cents, models);
    BumpTotal(s.deployments, (g.0, PartOf(g)), cents);
    hide ChargesBooked, Book, Look, Bump, PartOf, Total;
    BookAgrees(s, booked, g.2, CategoryOf(g, models), cents, after);
    hide Agrees;
    forall day ensures Look(after.days, (day, ToppedUp)) == Look(s.days, (day, ToppedUp)) &&
                       Look(after.days, (day, Adjustments)) == Look(s.days, (day, Adjustments)) {
      OtherColumnsKept(s, g, cents, models, day, ToppedUp);
      OtherColumnsKept(s, g, cents, models, day, Adjustments);
    }
  }

  lemma SummaryStarts(days: Tally<(int, Column)>, entries: seq<Row>, models: set<string>)
    requires EntriesBooked(days, entries)
    ensures ChargesBooked(Summary(days, [], 0), [], models) && EntriesShown(Summary(days, [], 0), entries)
  {
    forall day, c | IsCategory(c) ensures Look(days, (day, c)) == 0 {
      OnlyEntryColumns(entries, day, c);
    }
  }

  /** spending_summary: `models` are the deployments that are private models. */
  method SpendingSummary(p: Period, models: set<string>) returns (s: Summary)
    ensures Agrees(s, -Total(p.metered))
    ensures ChargesBooked(s, Charged(p.metered), models) && EntriesShown(s, p.entries)
    ensures ColumnTotal(s.days, ToppedUp) == SumOf(p.entries, true)
    ensures ColumnTotal(s.days, Adjustments) == SumOf(p.entries, false)
    ensures p.closing - p.opening == Total(p.metered) + Sum(p.entries) ==>
              p.opening + ColumnTotal(s.days, ToppedUp) +
                ColumnTotal(s.days, Adjustments) - ColumnTotal(s.days, ChargedColumn) == p.closing
  {
    hide ChargesBooked, EntriesShown, EntriesBooked, Agrees, ColumnTotal, SumOf, Sum, Charged, Look, ChargedUnder,
         Total, AddGroup;
    CreditsAndOthers(p.entries);
    var groups := Groups(p.metered);
    assert groups[0..] == groups && groups[..0] == [];
    var days := BookEntries(p.entries);
    SummaryStarts(days, p.entries, models);
    s := Summary(days, [], 0);
    ghost var booked := 0;
    for i := 0 to |groups|
      invariant Agrees(s, booked) && ChargesBooked(s, groups[..i], models) && EntriesShown(s, p.entries)
      invariant booked + Total(groups[i..]) == Total(groups)
      invariant ColumnTotal(s.days, ToppedUp) == SumOf(p.entries, true)
      invariant ColumnTotal(s.days, Adjustments) == SumOf(p.entries, false)
    {
      assert groups[..i + 1] == groups[..i] + [groups[i]];
      var group: GroupKey := groups[i].0;
      var cents := groups[i].1;
      TotalHead(groups[i..], groups[i + 1..]);
      SummaryStep(s, booked, groups[..i], group, cents, models, p.entries);
      s := AddGroup(s, group, cents, models);
      booked := booked + cents;
    }
    TotalEmpty(groups[|groups|..]);
    assert groups[..|groups|] == groups;
    ChargedColumnIs(s, booked);
  }

  lemma TotalHead(t: Tally<GroupKey>, rest: Tally<GroupKey>)
    requires t != [] && rest == t[1..]
    ensures Total(t) == t[0].1 + Total(rest)
  {
  }

  lemma TotalEmpty(t: Tally<GroupKey>)
    requires t == []
    ensures Total(t) == 0
  {
  }

  lemma ChargedColumnIs(s: Summary, charged: int)
    requires Agrees(s, charged)
    ensures ColumnTotal(s.days, ChargedColumn) == charged
  {
  }

  // --- The monthly statement --------------------------------------------------------------------

  datatype Line = Line(kind: string, cents: int)

  function LineTotal(lines: seq<Line>): int {
    if lines == [] then 0 else LineTotal(lines[..|lines| - 1]) + lines[|lines| - 1].cents
  }

  function TypeName(c: Column): string {
    match c
    case GpuRentals => "GPU rental"
    case PrivateModels => "Private model"
    case Storage => "Saved-pod storage"
    case SharedModels => "Shared models"
    case _ => ""
  }

  function EntryType(kind: string): string {
    if kind == "topup" then "Top-up" else if kind == "refund" then "Refund"
    else if kind == "adjustment" then "Adjustment" else if kind == "chargeback" then "Chargeback"
    else if kind == "bonus" then "Bonus" else Capitalized(kind)
  }

  function Upper(c: char): char { if 'a' <= c <= 'z' then 'A' + (c - 'a') else c }

  function Lowered(s: string): string {
    seq(|s|, i requires 0 <= i < |s| => LowerChar(s[i]))
  }

  function Capitalized(s: string): string { if s == "" then "" else [Upper(s[0])] + Lowered(s[1..]) }

  /** How a charge reads on a statement. */
  lemma ChargeReads(ref: Option<string>, kind: string, day: int, cents: int, models: set<string>)
    ensures var line := ChargeLine(((ref, kind, day), cents), models);
            && line.cents == -cents
            && (kind == "storage" ==> line.kind == "Saved-pod storage")
            && (kind == "inference" ==> line.kind == "Shared models")
            && (kind == "usage" && ref.Some? && ref.value in models ==> line.kind == "Private model")
            && (kind == "usage" && ref.Some? && ref.value !in models ==> line.kind == "GPU rental")
  {
  }

  /** How an entry reads: under its own name, or else by its kind, capitalized. */
  lemma EntryReads(e: Row, c: char, rest: string)
    ensures EntryLine(e).cents == e.cents
    ensures e.kind == "topup" ==> EntryLine(e).kind == "Top-up"
    ensures e.kind == "refund" ==> EntryLine(e).kind == "Refund"
    ensures e.kind == "adjustment" ==> EntryLine(e).kind == "Adjustment"
    ensures e.kind == "chargeback" ==> EntryLine(e).kind == "Chargeback"
    ensures e.kind == "bonus" ==> EntryLine(e).kind == "Bonus"
    ensures e.kind == [c] + rest && e.kind !in {"topup", "refund", "adjustment", "chargeback", "bonus"} ==>
              var kind := EntryLine(e).kind;
              && |kind| == 1 + |rest| && (forall i :: 0 <= i < |rest| ==> kind[1 + i] == LowerChar(rest[i]))
              && (if 'a' <= c <= 'z' then 'A' <= kind[0] <= 'Z' && LowerChar(kind[0]) == c else kind[0] == c)
    ensures e.kind == "" ==> EntryLine(e).kind == ""
  {
  }

  datatype Statement = Statement(
    opening: int, closing: int, credits: nat, charges: nat, byType: Tally<string>, lines: seq<Line>)

  function ChargeLine(group: (GroupKey, int), models: set<string>): Line {
    Line(TypeName(CategoryOf(group.0, models)), -group.1)
  }

  function EntryLine(e: Row): Line { Line(EntryType(e.kind), e.cents) }

  /** A charge per group, then each entry. */
  function AllLines(groups: Tally<GroupKey>, entries: seq<Row>, models: set<string>): seq<Line> {
    seq(|groups| + |entries|, i requires 0 <= i < |groups| + |entries| =>
      if i < |groups| then ChargeLine(groups[i], models) else EntryLine(entries[i - |groups|]))
  }

  /** The statement's lines; the order they are printed in does not matter for the sums. */
  method Lines(p: Period, models: set<string>) returns (lines: seq<Line>)
    ensures lines == AllLines(Charged(p.metered), p.entries, models)
    ensures LineTotal(lines) == Total(p.metered) + Sum(p.entries)
  {
    var groups := Groups(p.metered);
    hide CategoryOf, TypeName, EntryType, Total, Sum, LineTotal, Charged, AllLines, Look, ChargedUnder;
    lines := [];
    TotalsEmpty(models);
    assert groups[0..] == groups && groups[..0] == [];
    for i := 0 to |groups|
      invariant lines == AllLines(groups[..i], [], models)
      invariant LineTotal(lines) - Total(groups[i..]) == -Total(groups)
    {
      var line := Line(TypeName(CategoryOf(groups[i].0, models)), -groups[i].1);
      TotalHead(groups[i..], groups[i + 1..]);
      assert groups[..i + 1] == groups[..i] + [groups[i]];
      AllLinesGroup(groups[..i], groups[i], models);
      LineTotalSnoc(lines, line);
      lines := lines + [line];
    }
    TotalEmpty(groups[|groups|..]);
    assert groups[..|groups|] == groups && p.entries[..0] == [];
    for i := 0 to |p.entries|
      invariant lines == AllLines(groups, p.entries[..i], models)
      invariant LineTotal(lines) == -Total(groups) + Sum(p.entries[..i])
    {
      var line := Line(EntryType(p.entries[i].kind), p.entries[i].cents);
      assert p.entries[..i + 1] == p.entries[..i] + [p.entries[i]];
      SumsSnoc(p.entries[..i], p.entries[i], 0, 0);
      AllLinesSnoc(groups, p.entries[..i], p.entries[i], models);
      LineTotalSnoc(lines, line);
      lines := lines + [line];
    }
    assert p.entries[..|p.entries|] == p.entries;
  }

  lemma AllLinesSnoc(groups: Tally<GroupKey>, entries: seq<Row>, e: Row, models: set<string>)
    ensures AllLines(groups, entries + [e], models) ==
            AllLines(groups, entries, models) + [Line(EntryType(e.kind), e.cents)]
  {
    hide CategoryOf, TypeName, EntryType;
    var all, front := AllLines(groups, entries + [e], models), AllLines(groups, entries, models);
    forall i | 0 <= i < |front| ensures all[i] == front[i] {
      assert i >= |groups| ==> (entries + [e])[i - |groups|] == entries[i - |groups|];
    }
    assert all[|front|] == EntryLine(e);
  }

  lemma LineTotalSnoc(lines: seq<Line>, line: Line)
    ensures LineTotal(lines + [line]) == LineTotal(lines) + line.cents
  {
    assert (lines + [line])[..|lines|] == lines;
  }

  lemma AllLinesGroup(groups: Tally<GroupKey>, g: (GroupKey, int), models: set<string>)
    ensures AllLines(groups + [g], [], models) ==
            AllLines(groups, [], models) + [Line(TypeName(CategoryOf(g.0, models)), -g.1)]
  {
    hide CategoryOf, TypeName, EntryType;
    var all, front := AllLines(groups + [g], [], models), AllLines(groups, [], models);
    forall i | 0 <= i < |front| ensures all[i] == front[i] {
      assert (groups + [g])[i] == groups[i];
    }
    assert all[|front|] == ChargeLine(g, models);
  }

  lemma TotalsEmpty(models: set<string>)
    ensures LineTotal([]) == 0 && Sum([]) == 0 && AllLines([], [], models) == []
  {
  }

  /** What the lines of one type take away. */
  function ChargesOf(lines: seq<Line>, kind: string): nat {
    if lines == [] then 0
    else
      var l := lines[|lines| - 1];
      ChargesOf(lines[..|lines| - 1], kind) + (if l.cents < 0 && l.kind == kind then -l.cents else 0)
  }

  function CreditsOf(lines: seq<Line>): nat {
    if lines == [] then 0
    else CreditsOf(lines[..|lines| - 1]) + (if lines[|lines| - 1].cents > 0 then lines[|lines| - 1].cents else 0)
  }

  /** The running sums over the lines taken so far. */
  ghost predicate Counted(lines: seq<Line>, credits: nat, charges: nat, byType: Tally<string>) {
    && credits == CreditsOf(lines) && credits - charges == LineTotal(lines) && Total(byType) == charges
    && forall kind :: Look(byType, kind) == ChargesOf(lines, kind)
  }

  lemma CountedTotal(lines: seq<Line>, credits: nat, charges: nat, byType: Tally<string>)
    requires Counted(lines, credits, charges, byType)
    ensures credits - charges == LineTotal(lines)
  {
  }

  lemma NothingCounted()
    ensures Counted([], 0, 0, [])
  {
  }

  lemma CountLine(front: seq<Line>, line: Line, credits: nat, charges: nat, byType: Tally<string>)
    requires Counted(front, credits, charges, byType)
    ensures line.cents >= 0 ==> Counted(front + [line], credits + line.cents, charges, byType)
    ensures line.cents < 0 ==>
            Counted(front + [line], credits, charges - line.cents, Bump(byType, line.kind, -line.cents))
  {
    hide Bump, Look, Total;
    assert (front + [line])[..|front|] == front;
    BumpTotal(byType, line.kind, -line.cents);
    if line.cents < 0 {
      forall kind ensures Look(Bump(byType, line.kind, -line.cents), kind) == ChargesOf(front + [line], kind) {
        BumpLook(byType, line.kind, -line.cents, kind);
      }
    }
  }

  /** A month's statement from the ledger: credits minus charges are the sum of all
      the month's rows and lead from the opening to the closing balance, which are
      the ledger's own sums if the account's balance is. */
  method MonthlyStatement(ledger: seq<Row>, since: int, until: int, balanceNow: int, models: set<string>)
      returns (s: Statement)
    requires since <= until
    ensures s.credits - s.charges == SumWithin(ledger, since, until) == LineTotal(s.lines)
    ensures s.opening + s.credits - s.charges == s.closing
    ensures balanceNow == Sum(ledger) ==> s.opening == SumBefore(ledger, since) && s.closing == SumBefore(ledger, until)
    ensures Counted(s.lines, s.credits, s.charges, s.byType)
  {
    hide EntriesOf, MeteredUnder, SumWithin, SumBefore, Sum, LineTotal, Counted, Total, AllLines;
    var p := SpendingRows(ledger, since, until, balanceNow);
    s := StatementOf(p, models);
  }

  /** The statement over a period's rows: credits minus charges are all of their
      money, opening plus that is closing when the rows say so, and the charges by
      type are the types' own and add up to the charges. */
  method StatementOf(p: Period, models: set<string>) returns (s: Statement)
    ensures s.lines == AllLines(Charged(p.metered), p.entries, models)
    ensures s.credits - s.charges == Total(p.metered) + Sum(p.entries) == LineTotal(s.lines)
    ensures Counted(s.lines, s.credits, s.charges, s.byType)
    ensures s.opening == p.opening && s.closing == p.closing
    ensures p.closing - p.opening == Total(p.metered) + Sum(p.entries) ==>
            s.opening + s.credits - s.charges == s.closing
  {
    hide AllLines, Charged, Bump, Sum, LineTotal, Total, Counted;
    var lines := Lines(p, models);
    assert lines[..0] == [];
    var credits: nat, charges: nat := 0, 0;
    var byType: Tally<string> := [];
    NothingCounted();
    for i := 0 to |lines|
      invariant Counted(lines[..i], credits, charges, byType)
    {
      var line := lines[i];
      assert lines[..i + 1] == lines[..i] + [line];
      CountLine(lines[..i], line, credits, charges, byType);
      if line.cents > 0 {
        credits := credits + line.cents;
      } else if line.cents < 0 {
        charges := charges - line.cents;
        byType := Bump(byType, line.kind, -line.cents);
      }
    }
    assert lines[..|lines|] == lines;
    CountedTotal(lines, credits, charges, byType);
    s := Statement(p.opening, p.closing, credits, charges, byType, lines);
  }
}
