/**
  On-chain deposits: which invoice a transfer pays, by its exact amount or by its
  size, and how the amount of a new invoice is chosen.
 */
module Deposits {
  import opened Common

  type Amount = r: real | r >= 0.0

  datatype Status = Pending | Confirmed | Rejected | Expired

  /** An invoice's id is its position; invoices are in order of creation. */
  datatype Invoice = Invoice(
    user: string, currency: string, address: string,
    units: Option<nat>,            // the exact amount asked for, in millionths
    amount: Amount,                // the same as tokens
    amountUsd: Amount, bonus: Amount, totalCredits: nat,
    status: Status, expiresAt: int)

  datatype Deposit = Deposit(
    ref: string, currency: string, address: string, sender: string, raw: nat, decimals: nat, tx: string)

  // --- Exact amounts ------------------------------------------------------------------

  function Abs(x: int): nat { if x < 0 then -x else x }

  /** Does a transfer of `raw` at `decimals` pay exactly this many millionths? To the
      unit for stablecoins, give or take 100 for tokens with nine decimals or more. */
  predicate Exact(units: nat, raw: nat, decimals: nat) {
    if decimals >= 6
    then Abs(raw - units * Pow10(decimals - 6)) <= (if decimals >= 9 then 100 else 0)
    else raw * Pow10(6 - decimals) == units
  }

  /** For the tokens there are: stablecoins at six decimals to the unit, TAO and alpha at
      nine give or take a ten-millionth, and so do tokens at eighteen. */
  lemma ExactIs(units: nat, raw: nat)
    ensures Exact(units, raw, 6) <==> raw == units
    ensures Exact(units, raw, 8) <==> raw == 100 * units
    ensures Exact(units, raw, 9) <==> 1000 * units - 100 <= raw <= 1000 * units + 100
    ensures Exact(units, raw, 18) <==> 1_000_000_000_000 * units - 100 <= raw <= 1_000_000_000_000 * units + 100
    ensures Exact(units, raw, 4) <==> 100 * raw == units
  {
    assert Pow10(0) == 1 && Pow10(1) == 10 && Pow10(2) == 100 && Pow10(3) == 1000;
    assert Pow10(6) == 1_000_000 && Pow10(9) == 1_000_000_000;
    assert Pow10(12) == 1_000_000_000_000;
  }

  lemma {:induction false} Pow10AtLeast(n: nat)
    requires n >= 3
    ensures Pow10(n) >= 1000
  {
    if n == 3 {
      assert Pow10(1) == 10 && Pow10(2) == 100;
    } else {
      Pow10AtLeast(n - 1);
    }
  }

  lemma {:induction false} Apart(u: int, v: int, p: nat)
    requires u < v
    ensures v * p - u * p >= p
    decreases v - u
  {
    assert v * p == (v - 1) * p + p;
    if u < v - 1 {
      Apart(u, v - 1, p);
    }
  }

  /** Different amounts are never both exact for one transfer: the tolerance is far
      below the gap between two millionths. */
  lemma ExactIsUnique(u: nat, v: nat, raw: nat, decimals: nat)
    requires Exact(u, raw, decimals) && Exact(v, raw, decimals)
    ensures u == v
  {
    if decimals >= 6 && u != v {
      var p := Pow10(decimals - 6);
      if decimals >= 9 {
        Pow10AtLeast(decimals - 6);
      }
      Apart(Min(u, v), Max(u, v), p);
    }
  }

  // --- Which invoices a transfer could be for -------------------------------------------

  /** Addresses are compared without case. */
  function Fold(address: string): string { seq(|address|, i requires 0 <= i < |address| => LowerChar(address[i])) }

  predicate At(inv: Invoice, d: Deposit) { inv.currency == d.currency && Fold(inv.address) == Fold(d.address) }

  predicate Open(inv: Invoice, d: Deposit) { inv.status == Pending && At(inv, d) }

  predicate RecentlyExpired(inv: Invoice, d: Deposit, since: int) {
    inv.status == Expired && inv.expiresAt >= since && At(inv, d)
  }

  predicate Asked(inv: Invoice, d: Deposit) { inv.units.Some? && Exact(inv.units.value, d.raw, d.decimals) }

  function Tokens(d: Deposit): Amount { d.raw as real / Pow10(d.decimals) as real }

  /** Between half and twice what was asked. */
  predicate Near(inv: Invoice, tokens: real) {
    inv.amount > 0.0 && 0.5 * inv.amount <= tokens <= 2.0 * inv.amount
  }

  datatype Filter =
    | OpenExact
    | LateExact(since: int)
    | OpenNear
    | LateNear(since: int)

  predicate Passes(inv: Invoice, d: Deposit, f: Filter) {
    match f
    case OpenExact => Open(inv, d) && Asked(inv, d)
    case LateExact(since) => RecentlyExpired(inv, d, since) && Asked(inv, d)
    case OpenNear => Open(inv, d) && Near(inv, Tokens(d))
    case LateNear(since) => RecentlyExpired(inv, d, since) && Near(inv, Tokens(d))
  }

  /** Which invoices a transfer could pay: of its currency and address, open or expired no
      earlier than `since`, for exactly its amount or for between half and twice of it. */
  lemma PassesIs(inv: Invoice, d: Deposit, since: int)
    ensures Passes(inv, d, OpenExact) <==>
            && inv.status == Pending && inv.currency == d.currency && Fold(inv.address) == Fold(d.address)
            && inv.units.Some? && Exact(inv.units.value, d.raw, d.decimals)
    ensures Passes(inv, d, LateExact(since)) <==>
            && inv.status == Expired && inv.currency == d.currency && Fold(inv.address) == Fold(d.address)
            && inv.expiresAt >= since && inv.units.Some? && Exact(inv.units.value, d.raw, d.decimals)
    ensures Passes(inv, d, OpenNear) <==>
            && inv.status == Pending && inv.currency == d.currency && Fold(inv.address) == Fold(d.address)
            && inv.amount > 0.0 && inv.amount <= 2.0 * Tokens(d) && Tokens(d) <= 2.0 * inv.amount
    ensures Passes(inv, d, LateNear(since)) <==>
            && inv.status == Expired && inv.currency == d.currency && Fold(inv.address) == Fold(d.address)
            && inv.expiresAt >= since
            && inv.amount > 0.0 && inv.amount <= 2.0 * Tokens(d) && Tokens(d) <= 2.0 * inv.amount
  {
    hide Tokens, Exact, Fold;
  }

  /** A transfer of `raw` is so many tokens. */
  lemma TokensAre(d: Deposit)
    ensures Tokens(d) * Pow10(d.decimals) as real == d.raw as real
  {
  }

  /** The invoices that pass, oldest first. */
  function Matching(invoices: seq<Invoice>, d: Deposit, f: Filter): seq<nat> {
    if invoices == [] then []
    else
      var last := |invoices| - 1;
      Matching(invoices[..last], d, f) + (if Passes(invoices[last], d, f) then [last] else [])
  }

  lemma {:induction false} MatchingPasses(invoices: seq<Invoice>, d: Deposit, f: Filter, k: nat)
    requires k < |Matching(invoices, d, f)|
    ensures Matching(invoices, d, f)[k] < |invoices| && Passes(invoices[Matching(invoices, d, f)[k]], d, f)
  {
    hide Passes;
    var last := |invoices| - 1;
    if k < |Matching(invoices[..last], d, f)| {
      MatchingPasses(invoices[..last], d, f, k);
    }
  }

  lemma {:induction false} MatchingHasAll(invoices: seq<Invoice>, d: Deposit, f: Filter, i: nat)
    requires i < |invoices| && Passes(invoices[i], d, f)
    ensures i in Matching(invoices, d, f)
  {
    hide Passes;
    var last := |invoices| - 1;
    if i < last {
      MatchingHasAll(invoices[..last], d, f, i);
    }
  }

  lemma {:induction false} MatchingRises(invoices: seq<Invoice>, d: Deposit, f: Filter)
    ensures forall k :: 0 <= k < |Matching(invoices, d, f)| ==> Matching(invoices, d, f)[k] < |invoices|
    ensures forall k, l :: 0 <= k < l < |Matching(invoices, d, f)| ==>
            Matching(invoices, d, f)[k] < Matching(invoices, d, f)[l]
  {
    hide Passes;
    if invoices != [] {
      MatchingRises(invoices[..|invoices| - 1], d, f);
    }
  }

  predicate BothOpen(a: Invoice, b: Invoice) {
    a.status == Pending && b.status == Pending && a.currency == b.currency
  }

  predicate SameSpelling(a: Invoice, b: Invoice) { BothOpen(a, b) && a.address == b.address }

  /** The partial unique index: open invoices at one address ask for different amounts. */
  ghost predicate AmountsUnique(invoices: seq<Invoice>) {
    forall i, j :: 0 <= i < j < |invoices| && SameSpelling(invoices[i], invoices[j]) ==>
      invoices[i].units.None? || invoices[i].units != invoices[j].units
  }

  /** Addresses that are the same but for case are spelled the same. */
  ghost predicate OneSpelling(invoices: seq<Invoice>) {
    forall i, j :: 0 <= i < j < |invoices| && BothOpen(invoices[i], invoices[j]) ==>
      (Fold(invoices[i].address) == Fold(invoices[j].address) ==> invoices[i].address == invoices[j].address)
  }

  /** Two open invoices that a transfer can pay exactly, both. */
  predicate Clash(invoices: seq<Invoice>, i: nat, j: nat) {
    && i < j < |invoices| && BothOpen(invoices[i], invoices[j])
    && Fold(invoices[i].address) == Fold(invoices[j].address)
    && invoices[i].units.Some? && invoices[i].units == invoices[j].units
  }

  /** The amount alone says whose a transfer is, for every transfer, exactly when no
      two open invoices of one currency ask for one amount at addresses that are the
      same but for case. */
  lemma AtMostOneExactIff(invoices: seq<Invoice>)
    ensures (forall d :: |Matching(invoices, d, OpenExact)| <= 1) <==> forall i: nat, j: nat :: !Clash(invoices, i, j)
  {
    if i: nat, j: nat :| Clash(invoices, i, j) {
      var d := Deposit("", invoices[i].currency, invoices[i].address, "", invoices[i].units.value, 6, "");
      assert Exact(invoices[i].units.value, d.raw, 6);
      MatchingHasAll(invoices, d, OpenExact, i);
      MatchingHasAll(invoices, d, OpenExact, j);
      hide Passes, Matching;
      TwoMembers(Matching(invoices, d, OpenExact), i, j);
    } else {
      forall d ensures |Matching(invoices, d, OpenExact)| <= 1 {
        if |Matching(invoices, d, OpenExact)| >= 2 { TwoExactClash(invoices, d); }
      }
    }
  }

  lemma TwoExactClash(invoices: seq<Invoice>, d: Deposit)
    requires |Matching(invoices, d, OpenExact)| >= 2
    ensures Clash(invoices, Matching(invoices, d, OpenExact)[0], Matching(invoices, d, OpenExact)[1])
  {
    hide Matching, Exact;
    var exact := Matching(invoices, d, OpenExact);
    MatchingPasses(invoices, d, OpenExact, 0);
    MatchingPasses(invoices, d, OpenExact, 1);
    MatchingRises(invoices, d, OpenExact);
    ExactIsUnique(invoices[exact[0]].units.value, invoices[exact[1]].units.value, d.raw, d.decimals);
  }

  lemma TwoMembers(s: seq<nat>, i: nat, j: nat)
    requires i in s && j in s && i != j
    ensures |s| >= 2
  {
  }

  /** The index sees to that as long as addresses are spelled in one way. */
  lemma AtMostOneExact(invoices: seq<Invoice>, d: Deposit)
    requires AmountsUnique(invoices) && OneSpelling(invoices)
    ensures |Matching(invoices, d, OpenExact)| <= 1
  {
    hide Fold, Matching;
    assert forall i: nat, j: nat :: !Clash(invoices, i, j);
    AtMostOneExactIff(invoices);
  }

  /** The index compares addresses as spelled and the match does not: were the
      configured address respelled, two open invoices could ask for one amount. */
  lemma RespelledAddressIsAmbiguous(user: string, other: string)
    ensures var a := Invoice(user, "usdc-eth", "0xAB", Some(20000001), 20.000001, 20.0, 0.0, 2000, Pending, 0);
            var b := Invoice(other, "usdc-eth", "0xab", Some(20000001), 20.000001, 20.0, 0.0, 2000, Pending, 0);
            var d := Deposit("r", "usdc-eth", "0xab", "s", 20000001, 6, "t");
            AmountsUnique([a, b]) && Matching([a, b], d, OpenExact) == [0, 1]
  {
    var a := Invoice(user, "usdc-eth", "0xAB", Some(20000001), 20.000001, 20.0, 0.0, 2000, Pending, 0);
    var b := Invoice(other, "usdc-eth", "0xab", Some(20000001), 20.000001, 20.0, 0.0, 2000, Pending, 0);
    var d := Deposit("r", "usdc-eth", "0xab", "s", 20000001, 6, "t");
    assert Fold("0xAB") == "0xab" == Fold("0xab");
    assert Pow10(0) == 1;
    assert [a, b][..1] == [a] && [a][..0] == [];
    assert Matching([], d, OpenExact) == [];
    assert Matching([a], d, OpenExact) == [0];
  }

  // --- The amount of a new invoice --------------------------------------------------------

  /** Any amount a little above the base that is not taken; when there is none, one
      as far beyond the range as there are amounts taken. */
  ghost predicate MayPick(base: nat, maxExtra: nat, taken: set<nat>, units: nat) {
    if exists x :: base < x <= base + maxExtra && x !in taken
    then base < units <= base + maxExtra && units !in taken
    else units == base + maxExtra + 1 + |taken|
  }

  method PickUnits(base: nat, maxExtra: nat, taken: set<nat>) returns (units: nat)
    ensures MayPick(base, maxExtra, taken, units)
    ensures units !in taken <==>
            (exists x :: base < x <= base + maxExtra && x !in taken) || base + maxExtra + 1 + |taken| !in taken
  {
    var free: seq<nat> := [];
    for x := base + 1 to base + maxExtra + 1
      invariant forall u :: u in free <==> base < u < x && u !in taken
    {
      if x !in taken {
        free := free + [x];
      }
    }
    if free != [] {
      assert free[0] in free;
      units :| units in free;
    } else {
      units := base + maxExtra + 1 + |taken|;
    }
  }

  /** The n amounts above the base. */
  function Range(base: nat, n: nat): (r: set<nat>)
    ensures |r| == n && forall x :: x in r <==> base < x <= base + n
  {
    if n == 0 then {} else Range(base, n - 1) + {base + n}
  }

  /** Counting the taken amounts does not step over them: whatever the base and the
      range, the fallback is taken if the range is and the right amount beyond it. */
  lemma FallbackCanCollide(base: nat, maxExtra: nat)
    ensures var beyond := base + 2 * maxExtra + 2;
            MayPick(base, maxExtra, Range(base, maxExtra) + {beyond}, beyond)
  {
    var beyond := base + 2 * maxExtra + 2;
    var taken := Range(base, maxExtra) + {beyond};
    assert |taken| == maxExtra + 1;
    assert forall x :: base < x <= base + maxExtra ==> x in taken;
  }
}
