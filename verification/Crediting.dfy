/**
  Crediting deposits: the two repository operations that pay a transfer out, what
  they guarantee under any interleaving, and the rules by which the service decides
  whose a transfer is.
 */
module Crediting {
  import opened Common
  import opened Metering
  import opened Deposits

  datatype Logged = Unmatched | Credited | Ignored

  /** What a top-up entry was paid for: an on-chain transfer, or an administrator's
      confirmation of a transaction, its hash as typed, on an invoice in some currency.
      Unique in the ledger. */
  datatype Key = OnChain(ref: string) | Manual(currency: string, tx: string)

  /** A confirmation without a hash leaves no key. */
  datatype Credit = Credit(user: string, cents: nat, key: Option<Key>, invoice: Option<nat>)

  datatype Store = Store(
    invoices: seq<Invoice>,
    deposits: map<string, Logged>,
    ledger: seq<Credit>,
    balances: map<string, int>,
    wallets: map<string, string>)      // verified sender -> customer

  datatype Result = Missing | Refused | Already | Raised | Paid(cents: nat)

  predicate HasKey(ledger: seq<Credit>, key: Key) { exists i :: 0 <= i < |ledger| && ledger[i].key == Some(key) }

  predicate IsSpace(c: char) { c == ' ' || c == '\t' || c == '\n' || c == '\r' }

  function TrimStart(s: string): string { if s != "" && IsSpace(s[0]) then TrimStart(s[1..]) else s }

  function TrimEnd(s: string): string {
    if s != "" && IsSpace(s[|s| - 1]) then TrimEnd(s[..|s| - 1]) else s
  }

  /** A typed hash as the look-ups compare it. */
  function Hash(tx: string): string { Fold(TrimEnd(TrimStart(tx))) }

  lemma {:induction false} TrimBoth(tx: string, c: char)
    requires c in {' ', '\t', '\n', '\r'}
    ensures TrimEnd(TrimStart(tx + [c])) == TrimEnd(TrimStart(tx))
  {
    assert (tx + [c])[..|tx|] == tx;
    if tx == "" {
      assert [c][1..] == "";
    } else if IsSpace(tx[0]) {
      assert (tx + [c])[1..] == tx[1..] + [c];
      TrimBoth(tx[1..], c);
    }
  }

  /** White space around a typed hash does not matter, and nothing else is cut off. */
  lemma HashIs(tx: string, c: char)
    ensures c in {' ', '\t', '\n', '\r'} ==> Hash([c] + tx) == Hash(tx + [c]) == Hash(tx)
    ensures tx != "" && tx[0] !in {' ', '\t', '\n', '\r'} && tx[|tx| - 1] !in {' ', '\t', '\n', '\r'} ==>
              Hash(tx) == Fold(tx)
  {
    if c in {' ', '\t', '\n', '\r'} {
      assert ([c] + tx)[1..] == tx;
      TrimBoth(tx, c);
    }
  }

  predicate EndsWith(s: string, end: string) { |s| >= |end| && s[|s| - |end|..] == end }

  /** Does this key read as an administrator's confirmation of that hash, in any currency? */
  predicate ManualFor(key: Key, tx: string) {
    key.Manual? && EndsWith(Fold(key.currency + ":" + key.tx), ":" + Hash(tx))
  }

  /** What the look-up for an administrator's confirmation finds. */
  predicate ManuallyPaid(ledger: seq<Credit>, tx: string) {
    tx != "" && exists i :: 0 <= i < |ledger| && ledger[i].key.Some? && ManualFor(ledger[i].key.value, tx)
  }

  /** earlier_credit, of a transfer: under its reference or by an administrator. */
  predicate EarlierCredit(ledger: seq<Credit>, ref: string, tx: string) {
    HasKey(ledger, OnChain(ref)) || ManuallyPaid(ledger, tx)
  }

  predicate PaidInvoice(ledger: seq<Credit>, inv: nat) {
    exists i :: 0 <= i < |ledger| && ledger[i].invoice == Some(inv)
  }

  function SetStatus(s: Store, inv: nat, status: Status): Store
    requires inv < |s.invoices|
  {
    s.(invoices := s.invoices[inv := s.invoices[inv].(status := status)])
  }

  function Pay(s: Store, user: string, cents: nat, key: Option<Key>, invoice: Option<nat>): Store
    requires user in s.balances
  {
    s.(balances := s.balances[user := s.balances[user] + cents],
       ledger := s.ledger + [Credit(user, cents, key, invoice)])
  }

  /** confirm_and_credit_invoice. */
  function Confirm(s: Store, inv: nat, key: Option<Key>, allowExpired: bool, cents: Option<nat>): (Store, Result) {
    if inv >= |s.invoices| then (s, Missing)
    else
      var row := s.invoices[inv];
      if row.status == Rejected || (row.status == Expired && !allowExpired) then (s, Refused)
      else if PaidInvoice(s.ledger, inv) then (SetStatus(s, inv, Confirmed), Already)
      else if key.Some? && HasKey(s.ledger, key.value) then (s, Already)
      else if row.user !in s.balances then (s, Raised)
      else
        var c := if cents.Some? then cents.value else row.totalCredits;
        (Pay(SetStatus(s, inv, Confirmed), row.user, c, key, Some(inv)), Paid(c))
  }

  /** Its answers: refused for a rejected invoice, and for an expired one unless that is
      allowed; already for one that is paid, and for a key that is; raised without the
      owner's account; and else paid, the amount given or the invoice's own. */
  lemma ConfirmAnswers(s: Store, inv: nat, key: Option<Key>, allow: bool, cents: Option<nat>)
    ensures var (t, r) := Confirm(s, inv, key, allow, cents);
            if inv >= |s.invoices| then r == Missing && t == s
            else if s.invoices[inv].status == Rejected || (s.invoices[inv].status == Expired && !allow)
            then r == Refused && t == s
            else if PaidInvoice(s.ledger, inv) || (key.Some? && HasKey(s.ledger, key.value))
            then r == Already && t.ledger == s.ledger && t.balances == s.balances
            else if s.invoices[inv].user !in s.balances then r == Raised && t == s
            else
              && r == Paid(if cents.Some? then cents.value else s.invoices[inv].totalCredits)
              && t.ledger == s.ledger + [Credit(s.invoices[inv].user, r.cents, key, Some(inv))]
              && t.balances == s.balances[s.invoices[inv].user := s.balances[s.invoices[inv].user] + r.cents]
              && t.invoices == s.invoices[inv := s.invoices[inv].(status := Confirmed)]
  {
  }

  function Log(s: Store, ref: string, status: Logged): Store { s.(deposits := s.deposits[ref := status]) }

  /** credit_deposit: straight to a customer. */
  function CreditTo(s: Store, ref: string, tx: string, user: string, cents: nat): (Store, Result) {
    if ref !in s.deposits then (s, Missing)
    else if s.deposits[ref] == Credited then (s, Already)
    else if EarlierCredit(s.ledger, ref, tx) then (Log(s, ref, Credited), Already)
    else if user !in s.balances then (s, Raised)
    else (Log(Pay(s, user, cents, Some(OnChain(ref)), None), ref, Credited), Paid(cents))
  }

  /** Its answers: missing unless logged, already if it was credited or paid for, raised
      without the customer's account, and else paid and marked as credited. */
  lemma CreditAnswers(s: Store, ref: string, tx: string, user: string, cents: nat)
    ensures var (t, r) := CreditTo(s, ref, tx, user, cents);
            if ref !in s.deposits then r == Missing && t == s
            else if s.deposits[ref] == Credited || EarlierCredit(s.ledger, ref, tx)
            then r == Already && t == s.(deposits := s.deposits[ref := Credited])
            else if user !in s.balances then r == Raised && t == s
            else
              && r == Paid(cents) && t.deposits == s.deposits[ref := Credited] && t.invoices == s.invoices
              && t.ledger == s.ledger + [Credit(user, cents, Some(OnChain(ref)), None)]
              && t.balances == s.balances[user := s.balances[user] + cents]
  {
  }

  // --- At most once, under any interleaving --------------------------------------------

  datatype Step =
    | RecordDeposit(ref: string)
    | ConfirmInvoice(inv: nat, key: Option<Key>, allowExpired: bool, worth: Option<nat>)
    | CreditDeposit(ref: string, tx: string, user: string, cents: nat)
    | MarkDeposit(ref: string, status: Logged)
    | NewInvoice(invoice: Invoice)
    | CloseInvoice(inv: nat, expired: bool)

  function Apply(s: Store, step: Step): Store {
    match step
    case RecordDeposit(ref) => if ref in s.deposits then s else Log(s, ref, Unmatched)
    case ConfirmInvoice(inv, key, allow, cents) => Confirm(s, inv, key, allow, cents).0
    case CreditDeposit(ref, tx, user, cents) => CreditTo(s, ref, tx, user, cents).0
    case MarkDeposit(ref, status) => if ref in s.deposits then Log(s, ref, status) else s
    case NewInvoice(invoice) => s.(invoices := s.invoices + [invoice.(status := Pending)])
    case CloseInvoice(inv, expired) =>
      if inv < |s.invoices| && s.invoices[inv].status == Pending
      then SetStatus(s, inv, if expired then Expired else Rejected) else s
  }

  function Run(s: Store, steps: seq<Step>): Store {
    if steps == [] then s else Apply(Run(s, steps[..|steps| - 1]), steps[|steps| - 1])
  }

  function Received(ledger: seq<Credit>, user: string): nat {
    if ledger == [] then 0
    else Received(ledger[..|ledger| - 1], user) +
         (if ledger[|ledger| - 1].user == user then ledger[|ledger| - 1].cents else 0)
  }

  ghost predicate EachOnce(ledger: seq<Credit>) {
    forall i, j :: 0 <= i < j < |ledger| ==>
      && (ledger[i].key.Some? ==> ledger[i].key != ledger[j].key)
      && (ledger[i].invoice.Some? ==> ledger[i].invoice != ledger[j].invoice)
  }

  /** A paid invoice is confirmed; an open or closed one is not paid. */
  ghost predicate PaidAreConfirmed(s: Store) {
    forall i :: 0 <= i < |s.ledger| && s.ledger[i].invoice.Some? ==>
      s.ledger[i].invoice.value < |s.invoices| && s.invoices[s.ledger[i].invoice.value].status == Confirmed
  }

  ghost predicate BalancesAdd(s: Store, opening: map<string, int>) {
    s.balances.Keys == opening.Keys && forall u :: u in opening ==> s.balances[u] == opening[u] + Received(s.ledger, u)
  }

  ghost predicate Sound(s: Store, opening: map<string, int>) {
    EachOnce(s.ledger) && PaidAreConfirmed(s) && BalancesAdd(s, opening)
  }

  lemma PayIsSound(
      s: Store, user: string, cents: nat, key: Option<Key>, invoice: Option<nat>, opening: map<string, int>)
    requires Sound(s, opening) && user in s.balances && (key.Some? ==> !HasKey(s.ledger, key.value))
    requires invoice.Some? ==>
               invoice.value < |s.invoices| && s.invoices[invoice.value].status == Confirmed &&
                 !PaidInvoice(s.ledger, invoice.value)
    ensures Sound(Pay(s, user, cents, key, invoice), opening)
  {
    var t := Pay(s, user, cents, key, invoice);
    assert t.ledger[..|t.ledger| - 1] == s.ledger;
    assert forall i :: 0 <= i < |s.ledger| ==> t.ledger[i] == s.ledger[i];
  }

  lemma ConfirmIsSound(
      s: Store, inv: nat, key: Option<Key>, allow: bool, cents: Option<nat>, opening: map<string, int>)
    requires Sound(s, opening)
    ensures Sound(Confirm(s, inv, key, allow, cents).0, opening)
  {
    if inv < |s.invoices| {
      var t := SetStatus(s, inv, Confirmed);
      assert Sound(t, opening);
      var r := Confirm(s, inv, key, allow, cents).1;
      if r.Paid? {
        hide Sound, EachOnce, BalancesAdd;
        PayIsSound(t, s.invoices[inv].user, r.cents, key, Some(inv), opening);
      }
    }
  }

  lemma CreditIsSound(s: Store, ref: string, tx: string, user: string, cents: nat, opening: map<string, int>)
    requires Sound(s, opening)
    ensures Sound(CreditTo(s, ref, tx, user, cents).0, opening)
  {
    if CreditTo(s, ref, tx, user, cents).1.Paid? {
      PayIsSound(s, user, cents, Some(OnChain(ref)), None, opening);
    }
  }

  lemma StepIsSound(s: Store, step: Step, opening: map<string, int>)
    requires Sound(s, opening)
    ensures Sound(Apply(s, step), opening)
  {
    match step
    case ConfirmInvoice(inv, key, allow, cents) => ConfirmIsSound(s, inv, key, allow, cents, opening);
    case CreditDeposit(ref, tx, user, cents) => CreditIsSound(s, ref, tx, user, cents, opening);
    case CloseInvoice(inv, expired) =>
    case _ =>
  }

  /** Whatever the interleaving of watchers, administrators and wallet links, a
      deposit reference and an invoice are each paid at most once, and every balance
      is its opening plus what its ledger says it received. */
  lemma {:induction false} PaidAtMostOnce(s: Store, steps: seq<Step>)
    requires s.ledger == []
    ensures Sound(Run(s, steps), s.balances)
  {
    if steps != [] {
      PaidAtMostOnce(s, steps[..|steps| - 1]);
      StepIsSound(Run(s, steps[..|steps| - 1]), steps[|steps| - 1], s.balances);
    }
  }

  // --- Whose is it? --------------------------------------------------------------------

  datatype How = ExactAmount | LateExactAmount | Overpaid | Underpaid | LateBySize

  datatype Outcome =
    | Seen
    | Dust                                  // worth less than a cent
    | NobodyFound
    | Failed                                // the customer's account is missing
    | ByInvoice(inv: nat, how: How)
    | ByWallet(user: string)

  function CreditInvoice(s: Store, inv: nat, d: Deposit, how: How, cents: Option<nat>, allow: bool)
    : (Store, Option<Outcome>)
  {
    var (t, r) := Confirm(s, inv, Some(OnChain(d.ref)), allow, cents);
    match r
    case Missing => (t, None)
    case Refused => (t, None)
    case Raised => (t, Some(Failed))
    case Paid(_) => (Log(t, d.ref, Credited), Some(ByInvoice(inv, how)))
    case Already => (Log(t, d.ref, Credited), Some(Seen))
  }

  function TryEach(s: Store, invs: seq<nat>, d: Deposit): (Store, Option<Outcome>) {
    if invs == [] then (s, None)
    else
      var (t, o) := CreditInvoice(s, invs[0], d, ExactAmount, None, false);
      if o.Some? then (t, o) else TryEach(t, invs[1..], d)
  }

  /** An invoice closed meanwhile is passed over; one that was paid ends the search, as one
      does whose owner is missing. */
  lemma CreditInvoiceIs(s: Store, inv: nat, d: Deposit, how: How, cents: Option<nat>, allow: bool)
    ensures var (t, o) := CreditInvoice(s, inv, d, how, cents, allow);
            var (u, r) := Confirm(s, inv, Some(OnChain(d.ref)), allow, cents);
            && (r == Missing || r == Refused ==> o == None && t == s)
            && (r == Raised ==> o == Some(Failed) && t == s)
            && (r.Paid? ==> o == Some(ByInvoice(inv, how)) && t == u.(deposits := s.deposits[d.ref := Credited]))
            && (r == Already ==> o == Some(Seen) && t == u.(deposits := s.deposits[d.ref := Credited]))
  {
    ConfirmAnswers(s, inv, Some(OnChain(d.ref)), allow, cents);
    hide HasKey, PaidInvoice;
  }

  lemma TryEachIs(s: Store, inv: nat, rest: seq<nat>, d: Deposit)
    ensures TryEach(s, [], d) == (s, None)
    ensures var (t, o) := CreditInvoice(s, inv, d, ExactAmount, None, false);
            TryEach(s, [inv] + rest, d) == if o == None then TryEach(t, rest, d) else (t, o)
  {
    hide CreditInvoice;
    assert ([inv] + rest)[1..] == rest;
  }

  function BaseCurrency(currency: string): string {
    if currency == "" || currency[0] == '-' then "" else [LowerChar(currency[0])] + BaseCurrency(currency[1..])
  }

  /** Dollars a token. */
  function RateOf(inv: Invoice): Amount {
    if BaseCurrency(inv.currency) == "usdt" || BaseCurrency(inv.currency) == "usdc" then 1.0
    else if inv.amount > 0.0 then inv.amountUsd / inv.amount else 0.0
  }

  /** What arrived, at the rate the invoice was quoted at, bonus included. */
  function ValueAtInvoiceRate(inv: Invoice, tokens: Amount): nat {
    var cents := Cents(Times(tokens, RateOf(inv)) * 100.0);
    cents + Cents(Times(cents as real, inv.bonus))
  }

  /** Stablecoins: usdt and usdc, in any case, with or without a chain behind a dash. */
  lemma {:induction false} BaseCurrencyIs(name: string, chain: string)
    requires forall i :: 0 <= i < |name| ==> name[i] != '-'
    requires chain == "" || chain[0] == '-'
    ensures BaseCurrency(name + chain) == Fold(name)
  {
    if name == "" {
      assert name + chain == chain;
    } else {
      BaseCurrencyIs(name[1..], chain);
      assert (name + chain)[1..] == name[1..] + chain;
      assert Fold(name) == [LowerChar(name[0])] + Fold(name[1..]);
    }
  }

  /** To half a cent: a hundred cents for each of these dollars a token, and this share of
      that as a bonus. */
  predicate IsWorth(tokens: Amount, dollars: real, share: Amount, base: nat, bonus: nat) {
    && -0.5 <= base as real - 100.0 * (tokens * dollars) <= 0.5
    && -0.5 <= bonus as real - base as real * share <= 0.5
  }

  /** The worth of a payment by size, before and with its bonus: in a stablecoin a dollar
      a token, whatever the invoice asked for, ... */
  lemma WorthInDollars(inv: Invoice, tokens: Amount, name: string, chain: string) returns (base: nat, bonus: nat)
    requires inv.currency == name + chain && (forall i :: 0 <= i < |name| ==> name[i] != '-')
    requires (chain == "" || chain[0] == '-') && Fold(name) in {"usdt", "usdc"}
    ensures ValueAtInvoiceRate(inv, tokens) == base + bonus && IsWorth(tokens, 1.0, inv.bonus, base, bonus)
  {
    RateIs(inv, name, chain);
    hide *;
    base, bonus := WorthAt(inv, tokens, RateOf(inv));
  }

  /** ... and else the dollars the invoice asked for each of its tokens. */
  lemma WorthAtQuote(inv: Invoice, tokens: Amount, name: string, chain: string) returns (base: nat, bonus: nat)
    requires inv.currency == name + chain && (forall i :: 0 <= i < |name| ==> name[i] != '-')
    requires (chain == "" || chain[0] == '-') && Fold(name) !in {"usdt", "usdc"} && inv.amount > 0.0
    ensures ValueAtInvoiceRate(inv, tokens) == base + bonus
    ensures IsWorth(tokens, inv.amountUsd / inv.amount, inv.bonus, base, bonus)
  {
    RateIs(inv, name, chain);
    hide *;
    base, bonus := WorthAt(inv, tokens, RateOf(inv));
  }

  lemma WorthAt(inv: Invoice, tokens: Amount, rate: Amount) returns (base: nat, bonus: nat)
    requires rate == RateOf(inv)
    ensures ValueAtInvoiceRate(inv, tokens) == base + bonus && IsWorth(tokens, rate, inv.bonus, base, bonus)
  {
    hide ValueAtInvoiceRate, RateOf, Times;
    base, bonus := InTwoParts(inv, tokens);
    TimesIs(tokens, rate);
    TimesIs(base as real, inv.bonus);
  }

  lemma RateIs(inv: Invoice, name: string, chain: string)
    requires inv.currency == name + chain && (forall i :: 0 <= i < |name| ==> name[i] != '-')
    requires chain == "" || chain[0] == '-'
    ensures RateOf(inv) == if Fold(name) == "usdt" || Fold(name) == "usdc" then 1.0
                           else if inv.amount > 0.0 then inv.amountUsd / inv.amount else 0.0
  {
    BaseCurrencyIs(name, chain);
  }

  lemma TimesIs(a: Amount, b: Amount)
    ensures Times(a, b) == a * b
    ensures b == 1.0 ==> Times(a, b) == a
    ensures a == 0.0 || b == 0.0 ==> Times(a, b) == 0.0
  {
  }

  lemma InTwoParts(inv: Invoice, tokens: Amount) returns (base: nat, bonus: nat)
    ensures ValueAtInvoiceRate(inv, tokens) == base + bonus
    ensures -0.5 <= base as real - 100.0 * Times(tokens, RateOf(inv)) <= 0.5
    ensures Times(tokens, RateOf(inv)) == 0.0 ==> base == 0
    ensures -0.5 <= bonus as real - Times(base as real, inv.bonus) <= 0.5
    ensures Times(base as real, inv.bonus) == 0.0 ==> bonus == 0
  {
    hide RateOf, Cents, Times;
    base := Cents(Times(tokens, RateOf(inv)) * 100.0);
    CentsAreNear(Times(tokens, RateOf(inv)) * 100.0);
    bonus := Cents(Times(base as real, inv.bonus));
    CentsAreNear(Times(base as real, inv.bonus));
  }

  lemma CentsAreNear(x: real)
    requires x >= 0.0
    ensures -0.5 <= Cents(x) as real - x <= 0.5
    ensures x == 0.0 ==> Cents(x) == 0
  {
    RoundIsNearest(x);
  }

  function Times(a: Amount, b: Amount): Amount { a * b }

  function Cents(x: real): nat { if Round(x) >= 0 then Round(x) else 0 }

  predicate OneCustomer(invoices: seq<Invoice>, invs: seq<nat>) {
    invs != [] && forall k :: 0 <= k < |invs| ==>
      invs[0] < |invoices| && invs[k] < |invoices| && invoices[invs[k]].user == invoices[invs[0]].user
  }

  /** Rule 4: not an exact amount, but every invoice it could be for is one customer's. */
  function BySize(s: Store, d: Deposit, since: int, market: nat): (Store, Option<Outcome>) {
    var tokens := Tokens(d);
    var open, late := Matching(s.invoices, d, OpenNear), Matching(s.invoices, d, LateNear(since));
    if !OneCustomer(s.invoices, open + late) then (s, None)
    else if open != [] then
      var inv := s.invoices[(open + late)[0]];
      CreditInvoice(s, open[0], d, if tokens > inv.amount then Overpaid else Underpaid,
                    Some(ValueAtInvoiceRate(inv, tokens)), false)
    else CreditInvoice(s, late[|late| - 1], d, LateBySize, Some(market), true)
  }

  /** The rules after an exact open invoice: a single exact one that expired, a
      verified wallet, the size, and otherwise nobody. */
  function Late(s: Store, d: Deposit, since: int, market: nat): (Store, Option<Outcome>) {
    var late := Matching(s.invoices, d, LateExact(since));
    if |late| == 1 then CreditInvoice(s, late[0], d, LateExactAmount, Some(market), true) else (s, None)
  }

  function ToWallet(s: Store, d: Deposit, market: nat): (Store, Option<Outcome>) {
    if d.sender !in s.wallets || market < 1 then (s, None)
    else
      var (t, r) := CreditTo(s, d.ref, d.tx, s.wallets[d.sender], market);
      (t, Some(if r.Paid? then ByWallet(s.wallets[d.sender]) else if r.Raised? then Failed else Seen))
  }

  function Rest(s: Store, d: Deposit, since: int, market: nat): (Store, Outcome) {
    var (t, o) := Late(s, d, since, market);
    if o.Some? then (t, o.value)
    else
      var (u, p) := ToWallet(t, d, market);
      if p.Some? then (u, p.value)
      else
        var (v, q) := BySize(u, d, since, market);
        if q.Some? then (v, q.value)
        else if market < 1 then (Log(v, d.ref, Ignored), Dust) else (v, NobodyFound)
  }

  /** resolve_deposit; `market` is what the transfer is worth now, in cents. */
  function Resolve(s: Store, d: Deposit, since: int, market: nat): (Store, Outcome) {
    if d.ref in s.deposits && s.deposits[d.ref] != Unmatched then (s, Seen)
    else
      var logged := if d.ref in s.deposits then s else Log(s, d.ref, Unmatched);
      if EarlierCredit(s.ledger, d.ref, d.tx) then (Log(logged, d.ref, Credited), Seen)
      else
        var (t, o) := TryEach(logged, Matching(s.invoices, d, OpenExact), d);
        if o.Some? then (t, o.value) else Rest(t, d, since, market)
  }

  class DepositDesk {
    var invoices: seq<Invoice>
    var deposits: map<string, Logged>
    var ledger: seq<Credit>
    var balances: map<string, int>
    var wallets: map<string, string>

    ghost function View(): Store
      reads this
    {
      Store(invoices, deposits, ledger, balances, wallets)
    }

    constructor (balances: map<string, int>)
      ensures View() == Store([], map[], [], balances, map[])
    {
      invoices, deposits, ledger, this.balances, wallets := [], map[], [], balances, map[];
    }

    method ConfirmAndCredit(inv: nat, key: Option<Key>, allowExpired: bool, cents: Option<nat>) returns (r: Result)
      modifies this
      ensures (View(), r) == Confirm(old(View()), inv, key, allowExpired, cents)
    {
      if inv >= |invoices| {
        return Missing;
      }
      var row := invoices[inv];
      if row.status == Rejected || (row.status == Expired && !allowExpired) {
        return Refused;
      }
      if PaidInvoice(ledger, inv) {
        invoices := invoices[inv := row.(status := Confirmed)];
        return Already;
      }
      if key.Some? && HasKey(ledger, key.value) {
        return Already;
      }
      if row.user !in balances {
        return Raised;
      }
      var c := if cents.Some? then cents.value else row.totalCredits;
      invoices := invoices[inv := row.(status := Confirmed)];
      balances := balances[row.user := balances[row.user] + c];
      ledger := ledger + [Credit(row.user, c, key, Some(inv))];
      return Paid(c);
    }

    method CreditInvoiceFor(inv: nat, d: Deposit, how: How, cents: Option<nat>, allow: bool)
        returns (o: Option<Outcome>)
      modifies this
      ensures (View(), o) == CreditInvoice(old(View()), inv, d, how, cents, allow)
    {
      hide Confirm;
      var r := ConfirmAndCredit(inv, Some(OnChain(d.ref)), allow, cents);
      match r {
        case Missing => return None;
        case Refused => return None;
        case Raised => return Some(Failed);
        case Paid(_) =>
          deposits := deposits[d.ref := Credited];
          return Some(ByInvoice(inv, how));
        case Already =>
          deposits := deposits[d.ref := Credited];
          return Some(Seen);
      }
    }

    method CreditExact(invs: seq<nat>, d: Deposit) returns (o: Option<Outcome>)
      modifies this
      ensures (View(), o) == TryEach(old(View()), invs, d)
    {
      hide CreditInvoice;
      for k := 0 to |invs|
        invariant TryEach(View(), invs[k..], d) == TryEach(old(View()), invs, d)
      {
        assert invs[k..][1..] == invs[k + 1..];
        o := CreditInvoiceFor(invs[k], d, ExactAmount, None, false);
        if o.Some? {
          return;
        }
      }
      return None;
    }

    method CreditWallet(d: Deposit, market: nat) returns (o: Option<Outcome>)
      modifies this
      ensures (View(), o) == ToWallet(old(View()), d, market)
    {
      if d.sender !in wallets || market < 1 {
        return None;
      }
      var user := wallets[d.sender];
      if d.ref !in deposits || deposits[d.ref] == Credited {
        return Some(Seen);
      }
      if EarlierCredit(ledger, d.ref, d.tx) {
        deposits := deposits[d.ref := Credited];
        return Some(Seen);
      }
      if user !in balances {
        return Some(Failed);
      }
      balances := balances[user := balances[user] + market];
      ledger := ledger + [Credit(user, market, Some(OnChain(d.ref)), None)];
      deposits := deposits[d.ref := Credited];
      return Some(ByWallet(user));
    }

    method CreditBySize(d: Deposit, since: int, market: nat) returns (o: Option<Outcome>)
      modifies this
      ensures (View(), o) == BySize(old(View()), d, since, market)
    {
      hide CreditInvoice, Matching, ValueAtInvoiceRate;
      var tokens := Tokens(d);
      var open := Matching(invoices, d, OpenNear);
      var late := Matching(invoices, d, LateNear(since));
      var candidates := open + late;
      if !OneCustomer(invoices, candidates) {
        return None;
      }
      if open != [] {
        var inv := invoices[candidates[0]];
        var how := if tokens > inv.amount then Overpaid else Underpaid;
        o := CreditInvoiceFor(open[0], d, how, Some(ValueAtInvoiceRate(inv, tokens)), false);
        return;
      }
      o := CreditInvoiceFor(late[|late| - 1], d, LateBySize, Some(market), true);
    }

    method ResolveDeposit(d: Deposit, since: int, market: nat) returns (outcome: Outcome)
      modifies this
      ensures (View(), outcome) == Resolve(old(View()), d, since, market)
    {
      hide TryEach, CreditInvoice, Matching, ToWallet, BySize, HasKey;
      if d.ref in deposits && deposits[d.ref] != Unmatched {
        return Seen;
      }
      if d.ref !in deposits {
        deposits := deposits[d.ref := Unmatched];
      }
      if EarlierCredit(ledger, d.ref, d.tx) {
        deposits := deposits[d.ref := Credited];
        return Seen;
      }
      var o := CreditExact(Matching(invoices, d, OpenExact), d);
      if o.Some? {
        return o.value;
      }
      var late := Matching(invoices, d, LateExact(since));
      if |late| == 1 {
        o := CreditInvoiceFor(late[0], d, LateExactAmount, Some(market), true);
        if o.Some? {
          return o.value;
        }
      }
      o := CreditWallet(d, market);
      if o.Some? {
        return o.value;
      }
      o := CreditBySize(d, since, market);
      if o.Some? {
        return o.value;
      }
      if market < 1 {
        deposits := deposits[d.ref := Ignored];
        return Dust;
      }
      return NobodyFound;
    }
  }

  // --- What the rules guarantee -----------------------------------------------------------

  /** The store gained one entry: these cents to this customer, for this transfer, and on
      the balance. */
  ghost predicate Gained(s: Store, t: Store, d: Deposit, user: string, inv: Option<nat>, cents: nat) {
    && t.ledger == s.ledger + [Credit(user, cents, Some(OnChain(d.ref)), inv)]
    && user in s.balances && t.balances == s.balances[user := s.balances[user] + cents]
    && d.ref in t.deposits && t.deposits[d.ref] == Credited
  }

  /** An invoice that can still be paid is paid, or its owner's account is missing. */
  lemma PayableIsPaid(s: Store, i: nat, d: Deposit, how: How, cents: Option<nat>, allow: bool)
    requires PaidAreConfirmed(s) && !HasKey(s.ledger, OnChain(d.ref))
    requires i < |s.invoices| && (s.invoices[i].status == Pending || (s.invoices[i].status == Expired && allow))
    ensures var (t, o) := CreditInvoice(s, i, d, how, cents, allow);
            if s.invoices[i].user in s.balances
            then o == Some(ByInvoice(i, how)) &&
                 Gained(s, t, d, s.invoices[i].user, Some(i),
                        if cents.Some? then cents.value else s.invoices[i].totalCredits)
            else o == Some(Failed) && t == s
  {
  }

  /** No invoice asked for exactly this transfer. */
  predicate NoneExact(s: Store, d: Deposit) { Matching(s.invoices, d, OpenExact) == [] }

  predicate IsNear(inv: Invoice, d: Deposit, since: int) {
    Passes(inv, d, OpenNear) || Passes(inv, d, LateNear(since))
  }

  /** Every open or recently expired invoice of this size is the customer's. */
  predicate AllNearAre(s: Store, d: Deposit, since: int, user: string) {
    forall i :: 0 <= i < |s.invoices| && IsNear(s.invoices[i], d, since) ==> s.invoices[i].user == user
  }

  lemma OneCustomersAll(s: Store, d: Deposit, since: int)
    requires OneCustomer(s.invoices, Matching(s.invoices, d, OpenNear) + Matching(s.invoices, d, LateNear(since)))
    ensures var both := Matching(s.invoices, d, OpenNear) + Matching(s.invoices, d, LateNear(since));
            both[0] < |s.invoices| && AllNearAre(s, d, since, s.invoices[both[0]].user)
  {
    hide Passes, Matching;
    var open, late := Matching(s.invoices, d, OpenNear), Matching(s.invoices, d, LateNear(since));
    var both := open + late;
    forall i | 0 <= i < |s.invoices| && IsNear(s.invoices[i], d, since)
      ensures s.invoices[i].user == s.invoices[both[0]].user
    {
      if Passes(s.invoices[i], d, OpenNear) {
        MatchingHasAll(s.invoices, d, OpenNear, i);
        var k :| 0 <= k < |open| && open[k] == i;
        assert both[k] == i;
      } else {
        MatchingHasAll(s.invoices, d, LateNear(since), i);
        var k :| 0 <= k < |late| && late[k] == i;
        assert both[|open| + k] == i;
      }
    }
  }

  /** Which invoice a payment by size is booked on, and for how much: the oldest open
      one, at its own rate; without one the latest expired, at the market's. */
  predicate SizedRight(s: Store, d: Deposit, since: int, market: nat, i: nat, how: How, cents: nat) {
    var open, late := Matching(s.invoices, d, OpenNear), Matching(s.invoices, d, LateNear(since));
    && i < |s.invoices|
    && (if open != []
        then i == open[0] && cents == ValueAtInvoiceRate(s.invoices[i], Tokens(d)) &&
             how == (if Tokens(d) > s.invoices[i].amount then Overpaid else Underpaid)
        else late != [] && i == late[|late| - 1] && cents == market && how == LateBySize)
  }

  /** By size: paid to the one customer whose every fitting invoice is, or to nobody
      because none fits or several customers' do. */
  lemma BySizeIs(s: Store, d: Deposit, since: int, market: nat) returns (cents: nat)
    requires PaidAreConfirmed(s) && !HasKey(s.ledger, OnChain(d.ref))
    ensures var (t, o) := BySize(s, d, since, market);
            var both := Matching(s.invoices, d, OpenNear) + Matching(s.invoices, d, LateNear(since));
            (o.None? <==> !OneCustomer(s.invoices, both)) && (o.None? || o == Some(Failed) ==> t == s) &&
            (o.Some? ==>
               both[0] < |s.invoices| && (o == Some(Failed) <==> s.invoices[both[0]].user !in s.balances)) &&
            (o.Some? && o.value != Failed ==>
               o.value.ByInvoice? && SizedRight(s, d, since, market, o.value.inv, o.value.how, cents) &&
               AllNearAre(s, d, since, s.invoices[o.value.inv].user) &&
               Gained(s, t, d, s.invoices[o.value.inv].user, Some(o.value.inv), cents))
  {
    hide AllNearAre, CreditInvoice, Gained, ValueAtInvoiceRate, HasKey;
    cents := market;
    var open, late := Matching(s.invoices, d, OpenNear), Matching(s.invoices, d, LateNear(since));
    var both := open + late;
    if OneCustomer(s.invoices, both) {
      OneCustomersAll(s, d, since);
      if open != [] {
        MatchingPasses(s.invoices, d, OpenNear, 0);
        var inv := s.invoices[both[0]];
        cents := ValueAtInvoiceRate(inv, Tokens(d));
        PayableIsPaid(s, open[0], d, if Tokens(d) > inv.amount then Overpaid else Underpaid,
                      Some(ValueAtInvoiceRate(inv, Tokens(d))), false);
        assert both[0] == open[0];
      } else {
        MatchingPasses(s.invoices, d, LateNear(since), |late| - 1);
        PayableIsPaid(s, late[|late| - 1], d, LateBySize, Some(market), true);
        assert both[|both| - 1] == late[|late| - 1];
      }
    }
  }

  lemma LateIs(s: Store, d: Deposit, since: int, market: nat)
    requires PaidAreConfirmed(s) && !HasKey(s.ledger, OnChain(d.ref))
    ensures var (t, o) := Late(s, d, since, market);
            var late := Matching(s.invoices, d, LateExact(since));
            (o.None? <==> |late| != 1) && (o.None? || o == Some(Failed) ==> t == s) &&
            (|late| == 1 ==>
               late[0] < |s.invoices| && (o == Some(Failed) <==> s.invoices[late[0]].user !in s.balances)) &&
            (o.Some? && o.value != Failed ==>
               o.value == ByInvoice(late[0], LateExactAmount) && late[0] < |s.invoices| &&
               Gained(s, t, d, s.invoices[late[0]].user, Some(late[0]), market))
  {
    hide CreditInvoice, Gained, HasKey;
    var late := Matching(s.invoices, d, LateExact(since));
    if |late| == 1 {
      MatchingPasses(s.invoices, d, LateExact(since), 0);
      PayableIsPaid(s, late[0], d, LateExactAmount, Some(market), true);
    }
  }

  lemma ExactIs(s: Store, d: Deposit)
    requires PaidAreConfirmed(s) && !HasKey(s.ledger, OnChain(d.ref))
    ensures var (t, o) := TryEach(s, Matching(s.invoices, d, OpenExact), d);
            var exact := Matching(s.invoices, d, OpenExact);
            (o.None? <==> exact == []) && (o.None? || o == Some(Failed) ==> t == s) &&
            (exact != [] ==>
               exact[0] < |s.invoices| && (o == Some(Failed) <==> s.invoices[exact[0]].user !in s.balances)) &&
            (o.Some? && o.value != Failed ==>
               o.value == ByInvoice(exact[0], ExactAmount) && exact[0] < |s.invoices| &&
               Passes(s.invoices[exact[0]], d, OpenExact) &&
               Gained(s, t, d, s.invoices[exact[0]].user, Some(exact[0]), s.invoices[exact[0]].totalCredits))
  {
    hide CreditInvoice, Gained, HasKey;
    var exact := Matching(s.invoices, d, OpenExact);
    if exact != [] {
      MatchingPasses(s.invoices, d, OpenExact, 0);
      PayableIsPaid(s, exact[0], d, ExactAmount, None, false);
    }
  }

  /** No invoice that expired lately asked for exactly this transfer, or several did. */
  predicate NoSingleLate(s: Store, d: Deposit, since: int) { |Matching(s.invoices, d, LateExact(since))| != 1 }

  ghost predicate SizedFor(s: Store, t: Store, d: Deposit, since: int, market: nat, i: nat, how: How) {
    exists cents :: SizedRight(s, d, since, market, i, how, cents) &&
           Gained(s, t, d, s.invoices[i].user, Some(i), cents)
  }

  /** The rules, in one statement: who is paid, how much, and why nobody else could be. */
  ghost predicate Attributed(s: Store, t: Store, d: Deposit, since: int, market: nat, o: Outcome) {
    match o
    case ByInvoice(i, how) =>
      && i < |s.invoices|
      && (match how
          case ExactAmount =>
            && !NoneExact(s, d) && i == Matching(s.invoices, d, OpenExact)[0]
            && Gained(s, t, d, s.invoices[i].user, Some(i), s.invoices[i].totalCredits)
          case LateExactAmount =>
            && NoneExact(s, d) && Matching(s.invoices, d, LateExact(since)) == [i]
            && Gained(s, t, d, s.invoices[i].user, Some(i), market)
          case _ =>
            && NoneExact(s, d) && NoSingleLate(s, d, since) && (d.sender !in s.wallets || market < 1)
            && AllNearAre(s, d, since, s.invoices[i].user) && SizedFor(s, t, d, since, market, i, how))
    case ByWallet(user) =>
      && NoneExact(s, d) && NoSingleLate(s, d, since) && market >= 1
      && d.sender in s.wallets && s.wallets[d.sender] == user && Gained(s, t, d, user, None, market)
    case NobodyFound =>
      && t.ledger == s.ledger && market >= 1 && NoneExact(s, d) && NoSingleLate(s, d, since) && d.sender !in s.wallets
      && !OneCustomer(s.invoices, Matching(s.invoices, d, OpenNear) + Matching(s.invoices, d, LateNear(since)))
    case _ => t.ledger == s.ledger && t.balances == s.balances
  }

  predicate Unpaid(s: Store, d: Deposit) { !EarlierCredit(s.ledger, d.ref, d.tx) }

  lemma WalletIs(s: Store, d: Deposit, since: int, market: nat)
    requires Unpaid(s, d) && d.ref in s.deposits && s.deposits[d.ref] == Unmatched
    requires NoneExact(s, d) && NoSingleLate(s, d, since) && d.sender in s.wallets && market >= 1
    ensures var (t, o) := ToWallet(s, d, market); o.Some? && Attributed(s, t, d, since, market, o.value)
  {
    hide HasKey, NoneExact, NoSingleLate, Matching;
  }

  lemma SizeIs(s: Store, d: Deposit, since: int, market: nat)
    requires PaidAreConfirmed(s) && Unpaid(s, d)
    requires NoneExact(s, d) && NoSingleLate(s, d, since) && (d.sender !in s.wallets || market < 1)
    ensures var (t, o) := BySize(s, d, since, market);
            if o.Some? then Attributed(s, t, d, since, market, o.value)
            else t == s && (market >= 1 ==> Attributed(s, s, d, since, market, NobodyFound))
  {
    var cents := BySizeIs(s, d, since, market);
    hide BySize, Gained, SizedRight, AllNearAre, Matching, NoneExact, NoSingleLate, HasKey, PaidAreConfirmed;
  }

  lemma RestIs(s: Store, d: Deposit, since: int, market: nat)
    requires PaidAreConfirmed(s) && Unpaid(s, d)
    requires NoneExact(s, d) && d.ref in s.deposits && s.deposits[d.ref] == Unmatched
    ensures var (t, o) := Rest(s, d, since, market); Attributed(s, t, d, since, market, o)
  {
    LateIs(s, d, since, market);
    hide HasKey, Gained, BySize;
    if Late(s, d, since, market).1.Some? {
      hide Late, ToWallet;
      assert |Matching(s.invoices, d, LateExact(since))| == 1;
    } else {
      assert Late(s, d, since, market) == (s, None);
      hide Late, Matching;
      assert NoSingleLate(s, d, since);
      hide NoSingleLate;
      if d.sender !in s.wallets || market < 1 {
        assert ToWallet(s, d, market) == (s, None);
        hide ToWallet;
        SizeIs(s, d, since, market);
        if market < 1 && BySize(s, d, since, market).1.None? {
          assert Rest(s, d, since, market).0.ledger == s.ledger;
        } else {
          hide Attributed;
        }
      } else {
        hide ToWallet, Attributed;
        WalletIs(s, d, since, market);
      }
    }
  }

  /** The rules once the transfer is logged and known to be unpaid. */
  lemma RulesAttribute(s: Store, d: Deposit, since: int, market: nat)
    requires PaidAreConfirmed(s) && Unpaid(s, d)
    requires d.ref in s.deposits && s.deposits[d.ref] == Unmatched
    ensures var (t, o) := TryEach(s, Matching(s.invoices, d, OpenExact), d);
            if o.Some? then Attributed(s, t, d, since, market, o.value)
            else Attributed(s, Rest(t, d, since, market).0, d, since, market, Rest(t, d, since, market).1)
  {
    ExactIs(s, d);
    hide TryEach, Matching, Rest, HasKey, PaidAreConfirmed, Passes, Gained;
    if TryEach(s, Matching(s.invoices, d, OpenExact), d).1.None? {
      hide Attributed;
      RestIs(s, d, since, market);
    }
  }

  /** Resolving a transfer pays at most one customer, the right
      one by the rules, and only if it was not paid before. */
  lemma ResolveAttributes(s: Store, d: Deposit, since: int, market: nat)
    requires PaidAreConfirmed(s)
    ensures var (t, o) := Resolve(s, d, since, market); Attributed(s, t, d, since, market, o)
    ensures var (t, _) := Resolve(s, d, since, market);
            EarlierCredit(s.ledger, d.ref, d.tx) ==> t.ledger == s.ledger
  {
    hide TryEach, Matching, Rest, HasKey;
    if !(d.ref in s.deposits && s.deposits[d.ref] != Unmatched) {
      var logged := if d.ref in s.deposits then s else Log(s, d.ref, Unmatched);
      if Unpaid(s, d) {
        RulesAttribute(logged, d, since, market);
        hide Attributed;
        AttributedFrom(s, logged, d, since, market);
      }
    }
  }

  /** Logging the transfer first makes no difference to the rules. */
  lemma AttributedFrom(s: Store, logged: Store, d: Deposit, since: int, market: nat)
    requires logged.invoices == s.invoices && logged.ledger == s.ledger && logged.wallets == s.wallets &&
             logged.balances == s.balances
    ensures forall t, o :: Attributed(logged, t, d, since, market, o) ==> Attributed(s, t, d, since, market, o)
  {
    hide Passes, Matching, ValueAtInvoiceRate, AllNearAre;
    forall t, o | Attributed(logged, t, d, since, market, o) ensures Attributed(s, t, d, since, market, o) {
      if o.ByInvoice? && o.how != ExactAmount && o.how != LateExactAmount {
        var cents :| SizedRight(logged, d, since, market, o.inv, o.how, cents) &&
                     Gained(logged, t, d, logged.invoices[o.inv].user, Some(o.inv), cents);
        assert SizedRight(s, d, since, market, o.inv, o.how, cents);
        assert Gained(s, t, d, s.invoices[o.inv].user, Some(o.inv), cents);
        NearFrom(s, logged, d, since, s.invoices[o.inv].user);
      }
    }
  }

  lemma NearFrom(s: Store, logged: Store, d: Deposit, since: int, user: string)
    requires logged.invoices == s.invoices
    ensures AllNearAre(logged, d, since, user) <==> AllNearAre(s, d, since, user)
  {
  }

  /** What a payment by size puts on the balance of the one customer it can be for. */
  lemma PaidBySize(s: Store, d: Deposit, since: int, market: nat, name: string, chain: string)
    returns (base: nat, bonus: nat)
    requires PaidAreConfirmed(s) && Resolve(s, d, since, market).1.ByInvoice?
    requires Resolve(s, d, since, market).1.how in {Overpaid, Underpaid}
    requires (forall k :: 0 <= k < |name| ==> name[k] != '-') && (chain == "" || chain[0] == '-')
    requires var i := Resolve(s, d, since, market).1.inv; i < |s.invoices| && s.invoices[i].currency == name + chain
    ensures var (t, o) := Resolve(s, d, since, market);
            var inv, tokens := s.invoices[o.inv], Tokens(d);
            && inv.user in s.balances && t.balances == s.balances[inv.user := s.balances[inv.user] + base + bonus]
            && (o.how == Overpaid <==> tokens > inv.amount)
            && inv.amount > 0.0
            && IsWorth(tokens, if Fold(name) in {"usdt", "usdc"} then 1.0 else inv.amountUsd / inv.amount, inv.bonus,
                       base, bonus)
  {
    var (t, o) := Resolve(s, d, since, market);
    var cents := SizedCents(s, d, since, market);
    hide *;
    base, bonus := WorthEither(s.invoices[o.inv], Tokens(d), name, chain);
  }

  lemma WorthEither(inv: Invoice, tokens: Amount, name: string, chain: string) returns (base: nat, bonus: nat)
    requires inv.currency == name + chain && (forall i :: 0 <= i < |name| ==> name[i] != '-')
    requires (chain == "" || chain[0] == '-') && inv.amount > 0.0
    ensures ValueAtInvoiceRate(inv, tokens) == base + bonus
    ensures IsWorth(tokens, if Fold(name) in {"usdt", "usdc"} then 1.0 else inv.amountUsd / inv.amount, inv.bonus,
                    base, bonus)
  {
    hide *;
    if Fold(name) in {"usdt", "usdc"} {
      base, bonus := WorthInDollars(inv, tokens, name, chain);
    } else {
      base, bonus := WorthAtQuote(inv, tokens, name, chain);
    }
  }

  lemma SizedCents(s: Store, d: Deposit, since: int, market: nat) returns (cents: nat)
    requires PaidAreConfirmed(s) && Resolve(s, d, since, market).1.ByInvoice?
    requires Resolve(s, d, since, market).1.how in {Overpaid, Underpaid}
    ensures var (t, o) := Resolve(s, d, since, market);
            && o.inv < |s.invoices| && s.invoices[o.inv].amount > 0.0
            && cents == ValueAtInvoiceRate(s.invoices[o.inv], Tokens(d))
            && (o.how == Overpaid <==> Tokens(d) > s.invoices[o.inv].amount)
            && s.invoices[o.inv].user in s.balances
            && t.balances == s.balances[s.invoices[o.inv].user := s.balances[s.invoices[o.inv].user] + cents]
  {
    var (t, o) := Resolve(s, d, since, market);
    ResolveAttributes(s, d, since, market);
    assert SizedFor(s, t, d, since, market, o.inv, o.how);
    hide Resolve, Attributed, Matching;
    cents :| SizedRight(s, d, since, market, o.inv, o.how, cents) &&
             Gained(s, t, d, s.invoices[o.inv].user, Some(o.inv), cents);
    if Matching(s.invoices, d, OpenNear) != [] {
      MatchingPasses(s.invoices, d, OpenNear, 0);
    }
  }

  /** To the wallet's owner, if it is worth a cent; a transfer that somebody credited in the
      meantime counts as seen. */
  lemma ToWalletIs(s: Store, d: Deposit, market: nat)
    ensures d.sender !in s.wallets || market == 0 ==> ToWallet(s, d, market) == (s, None)
    ensures d.sender in s.wallets && market > 0 ==>
              var (t, o) := ToWallet(s, d, market);
              var user := s.wallets[d.sender];
              && t == CreditTo(s, d.ref, d.tx, user, market).0
              && o == Some(if d.ref !in s.deposits || s.deposits[d.ref] == Credited ||
                              EarlierCredit(s.ledger, d.ref, d.tx) then Seen
                           else if user in s.balances then ByWallet(user) else Failed)
  {
    hide EarlierCredit;
  }

  /** Invoices of this size are one customer's exactly when there are some, and all have one
      owner. */
  lemma OneCustomerIff(s: Store, d: Deposit, since: int, i: nat)
    requires i < |s.invoices| && IsNear(s.invoices[i], d, since)
    ensures OneCustomer(s.invoices, Matching(s.invoices, d, OpenNear) + Matching(s.invoices, d, LateNear(since))) <==>
            AllNearAre(s, d, since, s.invoices[i].user)
  {
    var open, late := Matching(s.invoices, d, OpenNear), Matching(s.invoices, d, LateNear(since));
    var both := open + late;
    if OneCustomer(s.invoices, both) {
      OneCustomersAll(s, d, since);
    }
    if AllNearAre(s, d, since, s.invoices[i].user) {
      hide Passes, Matching;
      if Passes(s.invoices[i], d, OpenNear) {
        MatchingHasAll(s.invoices, d, OpenNear, i);
      } else {
        MatchingHasAll(s.invoices, d, LateNear(since), i);
      }
      forall k | 0 <= k < |both| ensures both[k] < |s.invoices| && s.invoices[both[k]].user == s.invoices[i].user {
        if k < |open| {
          MatchingPasses(s.invoices, d, OpenNear, k);
        } else {
          MatchingPasses(s.invoices, d, LateNear(since), k - |open|);
        }
      }
    }
  }

  /** Which rule applies, and that it pays: the first of an exact open invoice, a single
      exact one that expired lately, a verified wallet if the transfer is worth a cent, and
      one customer's invoices by size. Only a missing account stands in the way. */
  predicate Decided(s: Store, t: Store, d: Deposit, since: int, market: nat, o: Outcome) {
    var exact, late := Matching(s.invoices, d, OpenExact), Matching(s.invoices, d, LateExact(since));
    var both := Matching(s.invoices, d, OpenNear) + Matching(s.invoices, d, LateNear(since));
    if exact != [] then
      && exact[0] < |s.invoices|
      && o == if s.invoices[exact[0]].user in s.balances then ByInvoice(exact[0], ExactAmount) else Failed
    else if |late| == 1 then
      && late[0] < |s.invoices|
      && o == if s.invoices[late[0]].user in s.balances then ByInvoice(late[0], LateExactAmount) else Failed
    else if d.sender in s.wallets && market >= 1 then
      o == if s.wallets[d.sender] in s.balances then ByWallet(s.wallets[d.sender]) else Failed
    else if OneCustomer(s.invoices, both) then
      && both[0] < |s.invoices|
      && if s.invoices[both[0]].user in s.balances
         then o.ByInvoice? && o.how in {Overpaid, Underpaid, LateBySize} else o == Failed
    else if market < 1 then o == Dust && t.deposits == s.deposits[d.ref := Ignored]
    else o == NobodyFound && t.deposits == s.deposits[d.ref := Unmatched]
  }

  /** A transfer dealt with or paid for before is left at that; any other is decided. */
  lemma ResolveDecides(s: Store, d: Deposit, since: int, market: nat)
    requires PaidAreConfirmed(s)
    ensures var (t, o) := Resolve(s, d, since, market);
            if d.ref in s.deposits && s.deposits[d.ref] != Unmatched then o == Seen && t == s
            else if EarlierCredit(s.ledger, d.ref, d.tx)
            then o == Seen && t == s.(deposits := s.deposits[d.ref := Credited])
            else Decided(s, t, d, since, market, o)
  {
    hide Matching, TryEach, Rest, EarlierCredit, Decided;
    if !(d.ref in s.deposits && s.deposits[d.ref] != Unmatched) && !EarlierCredit(s.ledger, d.ref, d.tx) {
      var logged := if d.ref in s.deposits then s else Log(s, d.ref, Unmatched);
      assert logged.invoices == s.invoices && logged.deposits == s.deposits[d.ref := Unmatched];
      LoggedDecides(logged, d, since, market);
      var (t, p) := TryEach(logged, Matching(s.invoices, d, OpenExact), d);
      assert Resolve(s, d, since, market) == if p.Some? then (t, p.value) else Rest(t, d, since, market);
      DecidedFrom(s, logged, d, since, market);
    }
  }

  lemma DecidedFrom(s: Store, logged: Store, d: Deposit, since: int, market: nat)
    requires logged.invoices == s.invoices && logged.wallets == s.wallets && logged.balances == s.balances
    requires logged.deposits == s.deposits[d.ref := Unmatched]
    ensures forall t, o :: Decided(logged, t, d, since, market, o) ==> Decided(s, t, d, since, market, o)
  {
    hide Matching, OneCustomer;
  }

  lemma LoggedDecides(s: Store, d: Deposit, since: int, market: nat)
    requires PaidAreConfirmed(s) && Unpaid(s, d) && d.ref in s.deposits && s.deposits[d.ref] == Unmatched
    ensures var (t, p) := TryEach(s, Matching(s.invoices, d, OpenExact), d);
            var (u, q) := Rest(t, d, since, market);
            Decided(s, if p.Some? then t else u, d, since, market, if p.Some? then p.value else q)
  {
    ExactIs(s, d);
    hide TryEach, Rest, Matching, EarlierCredit, HasKey, Gained, Passes, PaidAreConfirmed;
    if Matching(s.invoices, d, OpenExact) == [] {
      hide Decided;
      RestDecides(s, d, since, market);
    }
  }

  lemma RestDecides(s: Store, d: Deposit, since: int, market: nat)
    requires PaidAreConfirmed(s) && Unpaid(s, d) && d.ref in s.deposits && s.deposits[d.ref] == Unmatched
    requires Matching(s.invoices, d, OpenExact) == []
    ensures var (u, q) := Rest(s, d, since, market); Decided(s, u, d, since, market, q)
  {
    LateIs(s, d, since, market);
    hide Matching, BySize, EarlierCredit, HasKey, Gained, Passes, OneCustomer, PaidAreConfirmed;
    if Late(s, d, since, market).1.None? {
      hide Late;
      if d.sender in s.wallets && market >= 1 {
        CreditAnswers(s, d.ref, d.tx, s.wallets[d.sender], market);
        hide CreditTo;
      } else {
        assert ToWallet(s, d, market) == (s, None);
        hide ToWallet;
        var cents := BySizeIs(s, d, since, market);
        SizedHow(s, d, since, market, cents);
        hide SizedRight, AllNearAre;
      }
    }
  }

  lemma SizedHow(s: Store, d: Deposit, since: int, market: nat, cents: nat)
    ensures forall i, how :: SizedRight(s, d, since, market, i, how, cents) ==> how in {Overpaid, Underpaid, LateBySize}
  {
  }

  /** Safe to call again: once a call paid the transfer, any later call, whatever the
      clock and the price, leaves the ledger alone. */
  lemma ResolveTwicePaysOnce(s: Store, d: Deposit, since: int, market: nat, since': int, market': nat)
    requires PaidAreConfirmed(s)
    ensures var (t, _) := Resolve(s, d, since, market);
            t.ledger != s.ledger ==> Resolve(t, d, since', market') == (t, Seen)
  {
    ResolveAttributes(s, d, since, market);
    hide Rest, TryEach, Matching, HasKey;
  }
}
