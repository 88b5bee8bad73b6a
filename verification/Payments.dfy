/**
  Whether a transfer is paid for once: the watcher and administrators each look
  whether a transaction has been paid for, and pay later, under keys that do not
  exclude each other.
 */
module Payments {
  import opened Common
  import opened Deposits
  import opened Crediting

  /** A call between its look and its payment; `seen` is how long the ledger was when
      it looked. */
  datatype Call =
    | WillConfirm(inv: nat, tx: string, review: bool, seen: nat)   // an administrator
    | WillCredit(ref: string, seen: nat)                           // the watcher

  datatype State = State(
    store: Store,
    hashes: map<string, string>,     // of the transaction each transfer is part of
    calls: map<nat, Call>)

  datatype Step =
    | LookByHand(c: nat, inv: nat, tx: string, review: bool)
    | ConfirmByHand(c: nat)
    | LookByWatcher(c: nat, ref: string)
    | ConfirmByWatcher(c: nat, inv: nat, allowExpired: bool, worth: Option<nat>)
    | CreditDeposit(ref: string, user: string, cents: nat)
    | EndCall(c: nat)
    | Book(step: Crediting.Step)     // anything that pays nothing

  function HashOf(s: State, ref: string): string { if ref in s.hashes then s.hashes[ref] else "" }

  /** tx_credit_owner: was a transfer of this transaction paid for, by any path? */
  predicate Owned(s: State, tx: string) {
    Hash(tx) != "" &&
      (|| (exists ref :: ref in s.store.deposits && Fold(HashOf(s, ref)) == Hash(tx) &&
             (HasKey(s.store.ledger, OnChain(ref)) || s.store.deposits[ref] == Credited))
       || ManuallyPaid(s.store.ledger, tx))
  }

  function ManualKey(s: State, call: Call): Option<Key> {
    if call.WillConfirm? && call.tx != "" && call.inv < |s.store.invoices|
    then Some(Manual(s.store.invoices[call.inv].currency, call.tx)) else None
  }

  /** A confirmation of an invoice that is confirmed already goes on, unless it closes a
      review. */
  predicate MayConfirm(s: State, inv: nat, tx: string, review: bool) {
    && inv < |s.store.invoices|
    && (Owned(s, tx) ==> !review && s.store.invoices[inv].status == Confirmed)
  }

  function Apply(s: State, step: Step): State {
    match step
    case LookByHand(c, inv, tx, review) =>
      if c in s.calls || !MayConfirm(s, inv, tx, review) then s
      else s.(calls := s.calls[c := WillConfirm(inv, tx, review, |s.store.ledger|)])
    case ConfirmByHand(c) =>
      if c !in s.calls || !s.calls[c].WillConfirm? then s
      else
        var call := s.calls[c];
        s.(store := Confirm(s.store, call.inv, ManualKey(s, call), call.review, None).0, calls := s.calls - {c})
    case LookByWatcher(c, ref) =>
      if c in s.calls || ref !in s.store.deposits || s.store.deposits[ref] != Unmatched ||
         EarlierCredit(s.store.ledger, ref, HashOf(s, ref)) then s
      else s.(calls := s.calls[c := WillCredit(ref, |s.store.ledger|)])
    case ConfirmByWatcher(c, inv, allow, worth) =>
      if c !in s.calls || !s.calls[c].WillCredit? then s
      else s.(store := Confirm(s.store, inv, Some(OnChain(s.calls[c].ref)), allow, worth).0)
    case CreditDeposit(ref, user, cents) => s.(store := CreditTo(s.store, ref, HashOf(s, ref), user, cents).0)
    case EndCall(c) => s.(calls := s.calls - {c})
    case Book(other) =>
      if other.ConfirmInvoice? || other.CreditDeposit? then s else s.(store := Crediting.Apply(s.store, other))
  }

  /** The rest of the books goes on in between: a transfer is logged once, an open invoice
      expires or is rejected; and nothing is paid by that. */
  lemma BookIs(s: State, ref: string, inv: nat, expired: bool)
    ensures var t := Apply(s, Book(RecordDeposit(ref)));
            && t.calls == s.calls && t.store.ledger == s.store.ledger && ref in t.store.deposits
            && t.store.deposits[ref] == if ref in s.store.deposits then s.store.deposits[ref] else Unmatched
    ensures var t := Apply(s, Book(CloseInvoice(inv, expired)));
            && t.calls == s.calls && t.store.ledger == s.store.ledger && |t.store.invoices| == |s.store.invoices|
            && (inv < |s.store.invoices| ==>
                  t.store.invoices[inv].status ==
                  if s.store.invoices[inv].status != Pending then s.store.invoices[inv].status
                  else if expired then Expired else Rejected)
    ensures ref in s.store.deposits ==>
              Apply(s, Book(MarkDeposit(ref, Ignored))).store.deposits == s.store.deposits[ref := Ignored]
    ensures ref !in s.store.deposits ==> Apply(s, Book(MarkDeposit(ref, Ignored))) == s
  {
  }

  /** An invoice is opened behind the others. */
  lemma OpenedIs(s: State, invoice: Invoice)
    ensures Apply(s, Book(NewInvoice(invoice))) ==
            s.(store := s.store.(invoices := s.store.invoices + [invoice.(status := Pending)]))
  {
  }

  /** What makes a transaction one that was paid for: a logged transfer of it that is in the
      ledger or marked as credited, or an administrator's entry for it. */
  lemma OwnedIff(s: State, tx: string)
    ensures Owned(s, tx) <==>
            Hash(tx) != "" &&
              (|| (exists ref :: ref in s.store.deposits && ref in s.hashes && Fold(s.hashes[ref]) == Hash(tx) &&
                     (s.store.deposits[ref] == Credited ||
                      exists i :: 0 <= i < |s.store.ledger| && s.store.ledger[i].key == Some(OnChain(ref))))
               || (exists i :: 0 <= i < |s.store.ledger| && s.store.ledger[i].key.Some? &&
                     ManualFor(s.store.ledger[i].key.value, tx)))
  {
    hide Hash, ManualFor;
    assert Fold("") == "";
    hide Fold;
    assert Hash("") == "" by { NothingHashed(); }
  }

  lemma NothingHashed()
    ensures Hash("") == ""
  {
  }

  /** Without a hash there is no key, and without a transfer no hash. */
  lemma NoHashNoKey(s: State, inv: nat, review: bool, seen: nat, ref: string)
    ensures ManualKey(s, WillConfirm(inv, "", review, seen)) == None
    ensures ref !in s.hashes ==> HashOf(s, ref) == ""
  {
  }

  function Run(s: State, steps: seq<Step>): State {
    if steps == [] then s else Apply(Run(s, steps[..|steps| - 1]), steps[|steps| - 1])
  }

  // --- When a step pays, and when it should not --------------------------------------------

  /** The transaction a key stands for, as the look-ups compare it. */
  function TxOf(hashes: map<string, string>, key: Key): string {
    match key
    case OnChain(ref) => if ref in hashes then Fold(hashes[ref]) else ""
    case Manual(_, tx) => Hash(tx)
  }

  /** Two keys under which one transfer is paid. Transfers of one transaction under
      their own references are several transfers. */
  predicate SameTransfer(hashes: map<string, string>, a: Key, b: Key) {
    if a.OnChain? && b.OnChain? then a == b else TxOf(hashes, a) == TxOf(hashes, b) != ""
  }

  predicate Repeats(hashes: map<string, string>, credit: Credit, key: Key) {
    credit.key.Some? && SameTransfer(hashes, credit.key.value, key)
  }

  /** No transfer is paid twice, under whatever keys. */
  ghost predicate PaidOnce(s: State) {
    forall i, j :: 0 <= i < j < |s.store.ledger| && s.store.ledger[j].key.Some? ==>
      !Repeats(s.hashes, s.store.ledger[i], s.store.ledger[j].key.value)
  }

  /** What confirming an invoice asks for before it pays. */
  predicate CanConfirm(s: Store, inv: nat, key: Option<Key>, allowExpired: bool) {
    && inv < |s.invoices| && s.invoices[inv].status != Rejected
    && (s.invoices[inv].status == Expired ==> allowExpired)
    && !PaidInvoice(s.ledger, inv) && (key.Some? ==> !HasKey(s.ledger, key.value))
    && s.invoices[inv].user in s.balances
  }

  /** What crediting a deposit asks for. */
  predicate CanCredit(s: Store, ref: string, tx: string, user: string) {
    && ref in s.deposits && s.deposits[ref] != Credited && !EarlierCredit(s.ledger, ref, tx)
    && user in s.balances
  }

  /** The key of a payment this step will make. */
  function Paying(s: State, step: Step): Option<Key> {
    match step
    case ConfirmByHand(c) =>
      if c in s.calls && s.calls[c].WillConfirm? &&
         CanConfirm(s.store, s.calls[c].inv, ManualKey(s, s.calls[c]), s.calls[c].review)
      then ManualKey(s, s.calls[c]) else None
    case ConfirmByWatcher(c, inv, allow, _) =>
      if c in s.calls && s.calls[c].WillCredit? && CanConfirm(s.store, inv, Some(OnChain(s.calls[c].ref)), allow)
      then Some(OnChain(s.calls[c].ref)) else None
    case CreditDeposit(ref, user, _) =>
      if CanCredit(s.store, ref, HashOf(s, ref), user) then Some(OnChain(ref)) else None
    case _ => None
  }

  ghost predicate PaidBefore(s: State, key: Key) {
    exists i :: 0 <= i < |s.store.ledger| && Repeats(s.hashes, s.store.ledger[i], key)
  }

  lemma ConfirmPays(s: Store, inv: nat, key: Option<Key>, allow: bool, worth: Option<nat>)
    ensures var t := Confirm(s, inv, key, allow, worth).0;
            && t.deposits == s.deposits && |t.invoices| == |s.invoices|
            && (if CanConfirm(s, inv, key, allow)
                then |t.ledger| == |s.ledger| + 1 && s.ledger <= t.ledger && t.ledger[|s.ledger|].key == key
                else t.ledger == s.ledger)
  {
    hide HasKey, PaidInvoice;
  }

  lemma CreditPays(s: Store, ref: string, tx: string, user: string, cents: nat)
    ensures var t := CreditTo(s, ref, tx, user, cents).0;
            && t.invoices == s.invoices && t.deposits.Keys == s.deposits.Keys
            && (if CanCredit(s, ref, tx, user)
                then |t.ledger| == |s.ledger| + 1 && s.ledger <= t.ledger &&
                     t.ledger[|s.ledger|].key == Some(OnChain(ref))
                else t.ledger == s.ledger)
  {
    hide EarlierCredit;
  }

  /** The ledger gains at most one entry, and one with a key exactly when the step is paying. */
  lemma LedgerGrows(s: State, step: Step)
    ensures var t := Apply(s, step);
            && t.hashes == s.hashes && s.store.ledger <= t.store.ledger
            && |s.store.ledger| <= |t.store.ledger| <= |s.store.ledger| + 1
            && Paying(s, step) ==
               (if |t.store.ledger| > |s.store.ledger| then t.store.ledger[|s.store.ledger|].key else None)
  {
    match step
    case ConfirmByHand(c) =>
      if c in s.calls && s.calls[c].WillConfirm? {
        ConfirmPays(s.store, s.calls[c].inv, ManualKey(s, s.calls[c]), s.calls[c].review, None);
        hide Confirm, CanConfirm;
      }
    case ConfirmByWatcher(c, inv, allow, worth) =>
      if c in s.calls && s.calls[c].WillCredit? {
        ConfirmPays(s.store, inv, Some(OnChain(s.calls[c].ref)), allow, worth);
        hide Confirm, CanConfirm;
      }
    case CreditDeposit(ref, user, cents) =>
      CreditPays(s.store, ref, HashOf(s, ref), user, cents);
      hide CreditTo, CanCredit;
    case _ =>
      hide Owned, EarlierCredit, Confirm, CreditTo;
  }

  /** For every state: a step pays some transfer a second time exactly when it is paying
      and the transfer has been paid, under whatever key. */
  lemma PaidOnceKeptIff(s: State, step: Step)
    requires PaidOnce(s)
    ensures PaidOnce(Apply(s, step)) <==> !(Paying(s, step).Some? && PaidBefore(s, Paying(s, step).value))
  {
    var t, n, key := Apply(s, step), |s.store.ledger|, Paying(s, step);
    LedgerGrows(s, step);
    hide Apply, Paying, Repeats;
    assert forall i :: 0 <= i < n ==> t.store.ledger[i] == s.store.ledger[i];
    if key.Some? {
      assert t.store.ledger[n].key == key;
      if i :| 0 <= i < n && Repeats(s.hashes, s.store.ledger[i], key.value) {
        assert Repeats(t.hashes, t.store.ledger[i], t.store.ledger[n].key.value);
      }
    }
  }

  // --- What a look is worth ------------------------------------------------------------------

  /** Typed, or on the row, without spaces around it. */
  predicate Neat(tx: string) { Fold(tx) == Hash(tx) }

  predicate NeatChain(s: State) { forall ref :: ref in s.hashes ==> Neat(s.hashes[ref]) }

  predicate NeatLedger(s: State) {
    forall i :: 0 <= i < |s.store.ledger| && s.store.ledger[i].key.Some? && s.store.ledger[i].key.value.Manual? ==>
      Neat(s.store.ledger[i].key.value.tx)
  }

  predicate AllLogged(s: State) {
    forall i :: 0 <= i < |s.store.ledger| && s.store.ledger[i].key.Some? && s.store.ledger[i].key.value.OnChain? ==>
      s.store.ledger[i].key.value.ref in s.store.deposits
  }

  ghost predicate ConfirmedArePaid(s: State) {
    forall i :: 0 <= i < |s.store.invoices| && s.store.invoices[i].status == Confirmed ==>
      PaidInvoice(s.store.ledger, i)
  }

  /** The key a call will pay under. */
  function KeyOf(s: State, call: Call): Option<Key> {
    if call.WillCredit? then Some(OnChain(call.ref)) else ManualKey(s, call)
  }

  /** When the call looked, the transfer had not been paid. */
  predicate LookedRight(s: State, call: Call) {
    && call.seen <= |s.store.ledger|
    && (call.WillConfirm? ==> call.inv < |s.store.invoices| && Neat(call.tx))
    && (call.WillCredit? ==> call.ref in s.store.deposits)
    && (|| (call.WillConfirm? && s.store.invoices[call.inv].status == Confirmed)
        || (KeyOf(s, call).Some? ==>
              forall i :: 0 <= i < call.seen ==> !Repeats(s.hashes, s.store.ledger[i], KeyOf(s, call).value)))
  }

  ghost predicate Inv(s: State) {
    && NeatChain(s) && NeatLedger(s) && AllLogged(s) && ConfirmedArePaid(s)
    && forall c :: c in s.calls ==> LookedRight(s, s.calls[c])
  }

  /** Nothing has been paid for the caller's transfer since it looked. */
  predicate Fresh(s: State, step: Step) {
    (step.ConfirmByHand? || step.ConfirmByWatcher?) && step.c in s.calls ==>
      var call := s.calls[step.c];
      KeyOf(s, call).Some? ==>
        forall i :: 0 <= call.seen <= i < |s.store.ledger| ==>
          !Repeats(s.hashes, s.store.ledger[i], KeyOf(s, call).value)
  }

  lemma FoldJoins(a: string, b: string)
    ensures Fold(a + b) == Fold(a) + Fold(b)
  {
  }

  /** A neat manual key is found by a look for its transaction. */
  lemma ManualIsFound(key: Key, tx: string)
    requires key.Manual? && Neat(key.tx) && Hash(key.tx) == Hash(tx)
    ensures ManualFor(key, tx)
  {
    FoldJoins(key.currency + ":", key.tx);
    FoldJoins(key.currency, ":");
    hide Hash;
    var all := Fold(key.currency) + Fold(":") + Hash(tx);
    assert Fold(":") == ":";
    assert Fold(key.currency + ":" + key.tx) == all;
    assert all[|all| - |":" + Hash(tx)|..] == ":" + Hash(tx);
  }

  lemma {:induction false} TrimStartIs(s: string) returns (k: nat)
    ensures k <= |s| && TrimStart(s) == s[k..] && (k > 0 ==> IsSpace(s[k - 1]))
  {
    k := 0;
    if s != "" && IsSpace(s[0]) {
      var rest := TrimStartIs(s[1..]);
      k := rest + 1;
      assert s[1..][rest..] == s[k..];
    }
  }

  lemma {:induction false} TrimEndIs(s: string) returns (k: nat)
    ensures k <= |s| && TrimEnd(s) == s[..k] && (k > 0 ==> !IsSpace(s[k - 1])) && (k < |s| ==> IsSpace(s[|s| - 1]))
  {
    k := |s|;
    if s != "" && IsSpace(s[|s| - 1]) {
      k := TrimEndIs(s[..|s| - 1]);
      assert s[..|s| - 1][..k] == s[..k];
    }
  }

  lemma SpacesFold(c: char)
    ensures IsSpace(LowerChar(c)) <==> IsSpace(c)
  {
  }

  /** What is left of a hash once it is trimmed. */
  lemma TrimIs(tx: string) returns (a: nat, b: nat)
    ensures a <= b <= |tx| && Hash(tx) == Fold(tx[a..b]) && (a == 0 && b == |tx| ==> Neat(tx))
    ensures (a > 0 ==> IsSpace(tx[a - 1])) && (b < |tx| ==> IsSpace(tx[|tx| - 1]))
    ensures a < b ==> !IsSpace(tx[b - 1])
  {
    a := TrimStartIs(tx);
    var n := TrimEndIs(tx[a..]);
    b := a + n;
    assert tx[a..][..n] == tx[a..b];
    assert tx[0..|tx|] == tx;
  }

  lemma EndDiffers(whole: string, end: string, k: nat)
    requires k < |end| && k < |whole| && whole[|whole| - 1 - k] != end[|end| - 1 - k]
    ensures !EndsWith(whole, end)
  {
    if |whole| >= |end| {
      assert whole[|whole| - |end|..][|end| - 1 - k] == whole[|whole| - 1 - k];
    }
  }

  /** The character that tells a padded hash from its trimmed form. */
  lemma PaddedEnds(tx: string, before: string)
    requires Hash(tx) != "" && !Neat(tx)
    ensures !EndsWith(before + Fold(tx), ":" + Hash(tx))
  {
    var a, b := TrimIs(tx);
    hide Hash;
    var whole, end := before + Fold(tx), ":" + Fold(tx[a..b]);
    if b < |tx| {
      SpacesFold(tx[|tx| - 1]);
      SpacesFold(tx[b - 1]);
      EndDiffers(whole, end, 0);
    } else {
      SpacesFold(tx[a - 1]);
      EndDiffers(whole, end, b - a);
    }
  }

  /** An administrator's payment of a transaction is found by a look for it exactly when
      the hash was typed without spaces around it. */
  lemma ManualFoundIff(key: Key, tx: string)
    requires key.Manual? && Hash(key.tx) == Hash(tx) != ""
    ensures ManualFor(key, tx) <==> Neat(key.tx)
  {
    if Neat(key.tx) {
      ManualIsFound(key, tx);
    } else {
      FoldJoins(key.currency + ":", key.tx);
      PaddedEnds(key.tx, Fold(key.currency + ":"));
    }
  }

  /** What an administrator's look finds, and so what its silence means. */
  lemma HandLooks(s: State, tx: string, currency: string)
    requires NeatLedger(s) && AllLogged(s) && tx != "" && !Owned(s, tx)
    ensures forall i :: 0 <= i < |s.store.ledger| ==> !Repeats(s.hashes, s.store.ledger[i], Manual(currency, tx))
  {
    hide Hash, Fold, ManualFor;
    forall i | 0 <= i < |s.store.ledger| && s.store.ledger[i].key.Some?
      ensures !SameTransfer(s.hashes, s.store.ledger[i].key.value, Manual(currency, tx))
    {
      var key := s.store.ledger[i].key.value;
      if key.Manual? {
        if Hash(key.tx) == Hash(tx) {
          ManualIsFound(key, tx);
        }
      } else {
        assert HasKey(s.store.ledger, OnChain(key.ref));
        assert key.ref in s.store.deposits;
      }
    }
  }

  /** The same for the watcher's. */
  lemma WatcherLooks(s: State, ref: string)
    requires NeatChain(s) && NeatLedger(s) && !EarlierCredit(s.store.ledger, ref, HashOf(s, ref))
    ensures forall i :: 0 <= i < |s.store.ledger| ==> !Repeats(s.hashes, s.store.ledger[i], OnChain(ref))
  {
    assert Fold("") == "";
    hide Hash, Fold, ManualFor;
    forall i | 0 <= i < |s.store.ledger| && s.store.ledger[i].key.Some?
      ensures !SameTransfer(s.hashes, s.store.ledger[i].key.value, OnChain(ref))
    {
      var key := s.store.ledger[i].key.value;
      if key.Manual? {
        if ref in s.hashes && Hash(key.tx) == Fold(s.hashes[ref]) && Hash(key.tx) != "" {
          ManualIsFound(key, s.hashes[ref]);
        }
      } else {
        assert key == OnChain(ref) ==> HasKey(s.store.ledger, key);
      }
    }
  }

  /** So what a call pays a second time was paid since it looked, and crediting a deposit,
      which looks and pays in one transaction, pays nothing twice. */
  lemma PaidSinceLook(s: State, step: Step)
    requires Inv(s) && Paying(s, step).Some?
    ensures PaidBefore(s, Paying(s, step).value) <==> !Fresh(s, step)
  {
    var key := Paying(s, step).value;
    if step.CreditDeposit? {
      WatcherLooks(s, step.ref);
    } else {
      var call := s.calls[step.c];
      assert LookedRight(s, call) && KeyOf(s, call) == Some(key);
      hide Repeats, NeatLedger, NeatChain, AllLogged;
      if i :| 0 <= i < |s.store.ledger| && Repeats(s.hashes, s.store.ledger[i], key) {
        assert call.seen <= i;
      }
    }
  }

  /** Exactly when its look has gone stale does a payment pay a transfer twice. */
  lemma StaleLookPaysTwiceIff(s: State, step: Step)
    requires Inv(s) && PaidOnce(s)
    ensures PaidOnce(Apply(s, step)) <==> !(Paying(s, step).Some? && !Fresh(s, step))
  {
    hide *;
    PaidOnceKeptIff(s, step);
    if Paying(s, step).Some? {
      PaidSinceLook(s, step);
    }
  }

  // --- Every run -----------------------------------------------------------------------------

  /** Nothing already said is taken back. */
  predicate Grows(s: Store, t: Store) {
    && s.ledger <= t.ledger && s.deposits.Keys <= t.deposits.Keys && |s.invoices| <= |t.invoices|
    && forall i :: 0 <= i < |s.invoices| ==>
         && t.invoices[i].currency == s.invoices[i].currency
         && (s.invoices[i].status == Confirmed ==> t.invoices[i].status == Confirmed)
  }

  lemma ConfirmGrows(s: Store, inv: nat, key: Option<Key>, allow: bool, worth: Option<nat>)
    ensures Grows(s, Confirm(s, inv, key, allow, worth).0)
  {
    hide HasKey, PaidInvoice;
  }

  lemma StoreGrows(s: State, step: Step)
    ensures Grows(s.store, Apply(s, step).store)
  {
    match step
    case ConfirmByHand(c) =>
      if c in s.calls && s.calls[c].WillConfirm? {
        ConfirmGrows(s.store, s.calls[c].inv, ManualKey(s, s.calls[c]), s.calls[c].review, None);
        hide Confirm;
      }
    case ConfirmByWatcher(c, inv, allow, worth) =>
      if c in s.calls && s.calls[c].WillCredit? {
        ConfirmGrows(s.store, inv, Some(OnChain(s.calls[c].ref)), allow, worth);
        hide Confirm;
      }
    case _ =>
      hide Confirm, EarlierCredit, Owned;
  }

  lemma LookStaysRight(s: State, t: State, call: Call)
    requires LookedRight(s, call) && Grows(s.store, t.store) && t.hashes == s.hashes
    ensures LookedRight(t, call)
  {
    hide Repeats, Neat;
  }

  lemma HandLookRight(s: State, inv: nat, tx: string, review: bool)
    requires NeatLedger(s) && AllLogged(s) && MayConfirm(s, inv, tx, review) && Neat(tx)
    ensures LookedRight(s, WillConfirm(inv, tx, review, |s.store.ledger|))
  {
    if !Owned(s, tx) && tx != "" {
      HandLooks(s, tx, s.store.invoices[inv].currency);
    }
    hide Repeats, Neat, NeatLedger, AllLogged, Owned;
  }

  lemma WatcherLookRight(s: State, ref: string)
    requires NeatChain(s) && NeatLedger(s) && !EarlierCredit(s.store.ledger, ref, HashOf(s, ref))
    requires ref in s.store.deposits
    ensures LookedRight(s, WillCredit(ref, |s.store.ledger|))
  {
    WatcherLooks(s, ref);
    hide Repeats, Neat, NeatChain, NeatLedger, EarlierCredit;
  }

  lemma NewLooksRight(s: State, step: Step)
    requires Inv(s) && (step.LookByHand? ==> Neat(step.tx)) && (step.LookByHand? || step.LookByWatcher?)
    ensures var t := Apply(s, step); forall c :: c in t.calls ==> LookedRight(t, t.calls[c])
  {
    var t := Apply(s, step);
    hide Repeats, Neat, NeatChain, NeatLedger, AllLogged, Owned, EarlierCredit, ConfirmedArePaid;
    if t != s {
      if step.LookByHand? {
        HandLookRight(s, step.inv, step.tx, step.review);
      } else {
        WatcherLookRight(s, step.ref);
      }
      assert t.store == s.store && t.hashes == s.hashes;
      assert forall c :: c in t.calls ==> c == step.c || (c in s.calls && t.calls[c] == s.calls[c]);
      hide Apply, MayConfirm;
    }
  }

  lemma CallsStayRight(s: State, step: Step)
    requires Inv(s) && (step.LookByHand? ==> Neat(step.tx))
    ensures var t := Apply(s, step); forall c :: c in t.calls ==> LookedRight(t, t.calls[c])
  {
    var t := Apply(s, step);
    if step.LookByHand? || step.LookByWatcher? {
      NewLooksRight(s, step);
    } else {
      StoreGrows(s, step);
      assert t.hashes == s.hashes && forall c :: c in t.calls ==> c in s.calls && t.calls[c] == s.calls[c];
      hide Apply, LookedRight, Grows;
      forall c | c in t.calls ensures LookedRight(t, t.calls[c]) {
        LookStaysRight(s, t, t.calls[c]);
      }
    }
  }

  /** A new entry is neat, and the transfer it is for is logged. */
  lemma EntriesStayRight(s: State, step: Step)
    requires Inv(s)
    ensures NeatLedger(Apply(s, step)) && AllLogged(Apply(s, step))
  {
    hide *;
    LedgerGrows(s, step);
    StoreGrows(s, step);
    KeepsLogs(s.store, Apply(s, step).store);
    InvEntries(s);
    if Paying(s, step).Some? {
      NewKeyRight(s, step);
    }
    EntryAdded(s, Apply(s, step), Paying(s, step));
  }

  lemma KeepsLogs(s: Store, t: Store)
    requires Grows(s, t)
    ensures s.deposits.Keys <= t.deposits.Keys
  {
  }

  predicate KeyRight(s: State, key: Key) {
    match key
    case OnChain(ref) => ref in s.store.deposits
    case Manual(_, tx) => Neat(tx)
  }

  lemma EntryAdded(s: State, t: State, key: Option<Key>)
    requires NeatLedger(s) && AllLogged(s) && s.store.ledger <= t.store.ledger
    requires s.store.deposits.Keys <= t.store.deposits.Keys && |t.store.ledger| <= |s.store.ledger| + 1
    requires |t.store.ledger| > |s.store.ledger| ==> t.store.ledger[|s.store.ledger|].key == key
    requires key.Some? ==> KeyRight(s, key.value)
    ensures NeatLedger(t) && AllLogged(t)
  {
    hide Neat;
    assert forall i :: 0 <= i < |s.store.ledger| ==> t.store.ledger[i] == s.store.ledger[i];
  }

  lemma InvEntries(s: State)
    requires Inv(s)
    ensures NeatLedger(s) && AllLogged(s)
  {
  }

  lemma NewKeyRight(s: State, step: Step)
    requires Inv(s) && Paying(s, step).Some?
    ensures KeyRight(s, Paying(s, step).value)
  {
    hide Neat, CanConfirm, EarlierCredit;
    assert !step.CreditDeposit? ==> LookedRight(s, s.calls[step.c]);
  }

  lemma PaidStays(a: seq<Credit>, b: seq<Credit>, inv: nat)
    requires PaidInvoice(a, inv) && a <= b
    ensures PaidInvoice(b, inv)
  {
    var i :| 0 <= i < |a| && a[i].invoice == Some(inv);
    assert b[i].invoice == Some(inv);
  }

  lemma ConfirmConfirms(s: Store, inv: nat, key: Option<Key>, allow: bool, worth: Option<nat>)
    ensures var t := Confirm(s, inv, key, allow, worth).0;
            forall i :: 0 <= i < |t.invoices| && t.invoices[i].status == Confirmed ==>
              i < |s.invoices| && (s.invoices[i].status == Confirmed || PaidInvoice(t.ledger, i))
  {
    var t := Confirm(s, inv, key, allow, worth).0;
    if |t.ledger| > |s.ledger| {
      assert t.ledger[|s.ledger|].invoice == Some(inv);
      assert PaidInvoice(t.ledger, inv);
    }
    hide HasKey;
  }

  lemma ConfirmedStaysPaid(s: State, step: Step)
    requires ConfirmedArePaid(s)
    ensures ConfirmedArePaid(Apply(s, step))
  {
    var t := Apply(s, step);
    StoreGrows(s, step);
    assert forall i :: 0 <= i < |t.store.invoices| && t.store.invoices[i].status == Confirmed ==>
      i < |s.store.invoices| && (s.store.invoices[i].status == Confirmed || PaidInvoice(t.store.ledger, i)) by {
      NewlyConfirmed(s, step);
    }
    hide Apply, PaidInvoice;
    forall i | 0 <= i < |t.store.invoices| && t.store.invoices[i].status == Confirmed
      ensures PaidInvoice(t.store.ledger, i)
    {
      if s.store.invoices[i].status == Confirmed {
        PaidStays(s.store.ledger, t.store.ledger, i);
      }
    }
  }

  lemma NewlyConfirmed(s: State, step: Step)
    ensures var t := Apply(s, step);
            forall i :: 0 <= i < |t.store.invoices| && t.store.invoices[i].status == Confirmed ==>
              i < |s.store.invoices| && (s.store.invoices[i].status == Confirmed || PaidInvoice(t.store.ledger, i))
  {
    hide PaidInvoice;
    match step
    case ConfirmByHand(c) =>
      if c in s.calls && s.calls[c].WillConfirm? {
        ConfirmConfirms(s.store, s.calls[c].inv, ManualKey(s, s.calls[c]), s.calls[c].review, None);
        hide Confirm;
      }
    case ConfirmByWatcher(c, inv, allow, worth) =>
      if c in s.calls && s.calls[c].WillCredit? {
        ConfirmConfirms(s.store, inv, Some(OnChain(s.calls[c].ref)), allow, worth);
        hide Confirm;
      }
    case _ =>
      hide Confirm, EarlierCredit, Owned;
  }

  lemma StepKeeps(s: State, step: Step)
    requires Inv(s) && (step.LookByHand? ==> Neat(step.tx))
    ensures Inv(Apply(s, step))
  {
    CallsStayRight(s, step);
    EntriesStayRight(s, step);
    ConfirmedStaysPaid(s, step);
    LedgerGrows(s, step);
    hide Apply, LookedRight, NeatLedger, AllLogged, ConfirmedArePaid, Neat, Paying;
  }

  /** Nothing paid, nothing confirmed, no call begun; hashes on the chain have no spaces
      around them. */
  predicate Fit(s: State) {
    && s.store.ledger == [] && s.calls == map[] && NeatChain(s)
    && forall i :: 0 <= i < |s.store.invoices| ==> s.store.invoices[i].status != Confirmed
  }

  /** In every interleaving in which hashes are typed without spaces around them, and
      nothing is paid for a caller's transfer between its look and its payment, every
      transfer is paid at most once, over all keys. */
  lemma {:induction false} TransfersPaidOnce(s: State, steps: seq<Step>)
    requires Fit(s)
    requires forall k :: 0 <= k < |steps| ==>
               (steps[k].LookByHand? ==> Neat(steps[k].tx)) && Fresh(Run(s, steps[..k]), steps[k])
    ensures PaidOnce(Run(s, steps)) && Inv(Run(s, steps))
  {
    hide Neat, Fresh, Apply;
    if steps != [] {
      var init, step := steps[..|steps| - 1], steps[|steps| - 1];
      assert forall k :: 0 <= k < |init| ==> init[..k] == steps[..k];
      TransfersPaidOnce(s, init);
      hide PaidOnce, Inv;
      StepKeeps(Run(s, init), step);
      StaleLookPaysTwiceIff(Run(s, init), step);
    }
  }

  // --- Runs that pay twice ---------------------------------------------------------------------

  lemma Run2(s: State, a: Step, b: Step)
    ensures Run(s, [a, b]) == Apply(Apply(s, a), b)
  {
    hide Apply;
    assert [a, b][..1] == [a] && [a][..0] == [];
    assert Run(s, [a]) == Apply(s, a);
  }

  lemma Run4(s: State, a: Step, b: Step, c: Step, d: Step)
    ensures Run(s, [a, b, c, d]) == Apply(Apply(Apply(Apply(s, a), b), c), d)
  {
    hide Apply;
    Run2(s, a, b);
    assert [a, b, c, d][..3] == [a, b, c] && [a, b, c][..2] == [a, b];
  }

  /** Two open invoices with owners, and nothing paid. */
  predicate TwoOpen(s: State) {
    && s.store.ledger == [] && s.calls == map[] && |s.store.invoices| == 2
    && forall i :: 0 <= i < 2 ==>
         s.store.invoices[i].status == Pending && s.store.invoices[i].user in s.store.balances
  }

  /** Confirming an open, unpaid invoice. */
  lemma OpenIsPaid(s: Store, inv: nat, key: Key, worth: Option<nat>)
    requires inv < |s.invoices| && s.invoices[inv].status == Pending && s.invoices[inv].user in s.balances
    requires !PaidInvoice(s.ledger, inv) && !HasKey(s.ledger, key)
    ensures var t := Confirm(s, inv, Some(key), false, worth).0;
            && |t.ledger| == |s.ledger| + 1 && s.ledger <= t.ledger
            && t.ledger[|s.ledger|].key == Some(key) && t.ledger[|s.ledger|].invoice == Some(inv)
            && t.balances.Keys == s.balances.Keys && t.deposits == s.deposits
            && |t.invoices| == |s.invoices| && forall i :: 0 <= i < |s.invoices| && i != inv ==>
                                                t.invoices[i] == s.invoices[i]
  {
    hide HasKey, PaidInvoice;
  }

  /** The two entries of a run that pays twice. */
  lemma TwoEntries(s: State, first: Key, second: Key)
    requires |s.store.ledger| == 2 && s.store.ledger[0].key == Some(first) && s.store.ledger[1].key == Some(second)
    requires SameTransfer(s.hashes, first, second)
    ensures !PaidOnce(s)
  {
    assert Repeats(s.hashes, s.store.ledger[0], second);
  }

  /** Both invoices are paid, the first under one key and the second under another. */
  lemma BothPaid(s: Store, inv: nat, a: Key, b: Key)
    requires s.ledger == [] && |s.invoices| == 2 && inv < 2 && a != b
    requires forall i :: 0 <= i < 2 ==> s.invoices[i].status == Pending && s.invoices[i].user in s.balances
    ensures var t := Confirm(s, inv, Some(a), false, None).0;
            var u := Confirm(t, 1 - inv, Some(b), false, None).0;
            && |t.ledger| == 1 && t.ledger[0].key == Some(a) && t.deposits == s.deposits
            && |t.invoices| == 2 && t.invoices[1 - inv] == s.invoices[1 - inv]
            && |u.ledger| == 2 && u.ledger[0].key == Some(a) && u.ledger[1].key == Some(b)
  {
    OpenIsPaid(s, inv, a, None);
    var t := Confirm(s, inv, Some(a), false, None).0;
    hide Confirm;
    OpenIsPaid(t, 1 - inv, b, None);
  }

  lemma LooksByHand(s: State, c: nat, inv: nat, tx: string)
    requires c !in s.calls && inv < |s.store.invoices| && !Owned(s, tx)
    ensures Apply(s, LookByHand(c, inv, tx, false)) ==
            s.(calls := s.calls[c := WillConfirm(inv, tx, false, |s.store.ledger|)])
  {
  }

  lemma ConfirmsByHand(s: State, c: nat, inv: nat, tx: string)
    requires c in s.calls && s.calls[c].WillConfirm? && s.calls[c].inv == inv && s.calls[c].tx == tx
    requires !s.calls[c].review && tx != "" && inv < |s.store.invoices|
    ensures Apply(s, ConfirmByHand(c)) ==
            s.(store := Confirm(s.store, inv, Some(Manual(s.store.invoices[inv].currency, tx)), false, None).0,
               calls := s.calls - {c})
  {
  }

  lemma NothingOwned(s: State, tx: string)
    requires s.store.ledger == [] && forall ref :: ref in s.store.deposits ==> s.store.deposits[ref] != Credited
    ensures !Owned(s, tx)
  {
  }

  /** Two administrators look before either has paid, for invoices in two currencies. */
  lemma TwoCurrenciesPayTwice(s: State, tx: string)
    requires TwoOpen(s) && s.store.deposits == map[] && tx != "" && Hash(tx) != ""
    requires s.store.invoices[0].currency != s.store.invoices[1].currency
    ensures !PaidOnce(Run(s, [LookByHand(0, 0, tx, false), LookByHand(1, 1, tx, false),
                              ConfirmByHand(0), ConfirmByHand(1)]))
  {
    Run4(s, LookByHand(0, 0, tx, false), LookByHand(1, 1, tx, false), ConfirmByHand(0), ConfirmByHand(1));
    hide Run, Confirm, Hash, Apply, Owned;
    NothingOwned(s, tx);
    LooksByHand(s, 0, 0, tx);
    var s1 := s.(calls := map[0 := WillConfirm(0, tx, false, 0)]);
    NothingOwned(s1, tx);
    LooksByHand(s1, 1, 1, tx);
    var s2 := s1.(calls := s1.calls[1 := WillConfirm(1, tx, false, 0)]);
    BothConfirm(s2, tx);
  }

  lemma BothConfirm(s: State, tx: string)
    requires TwoOpen(s.(calls := map[])) && tx != "" && Hash(tx) != ""
    requires s.store.invoices[0].currency != s.store.invoices[1].currency
    requires s.calls == map[0 := WillConfirm(0, tx, false, 0), 1 := WillConfirm(1, tx, false, 0)]
    ensures !PaidOnce(Apply(Apply(s, ConfirmByHand(0)), ConfirmByHand(1)))
  {
    var a, b := Manual(s.store.invoices[0].currency, tx), Manual(s.store.invoices[1].currency, tx);
    BothPaid(s.store, 0, a, b);
    hide Confirm, Hash, Apply;
    ConfirmsByHand(s, 0, 0, tx);
    var t := Apply(s, ConfirmByHand(0));
    ConfirmsByHand(t, 1, 1, tx);
    TwoEntries(Apply(t, ConfirmByHand(1)), a, b);
  }

  /** An administrator confirms the transaction on one invoice after the watcher has
      looked for that, and before it credits the transfer to another. */
  lemma ConfirmedMeanwhilePaysTwice(s: State, ref: string, tx: string)
    requires TwoOpen(s) && s.store.deposits == map[ref := Unmatched] && tx != ""
    requires ref in s.hashes && s.hashes[ref] == tx && Neat(tx)
    ensures !PaidOnce(Run(s, [LookByWatcher(0, ref), LookByHand(1, 1, tx, false),
                              ConfirmByHand(1), ConfirmByWatcher(0, 0, false, None)]))
  {
    var a, b := Manual(s.store.invoices[1].currency, tx), OnChain(ref);
    Run4(s, LookByWatcher(0, ref), LookByHand(1, 1, tx, false), ConfirmByHand(1), ConfirmByWatcher(0, 0, false, None));
    assert Fold(tx) != "";
    BothPaid(s.store, 1, a, b);
    hide Run, Confirm, Hash, Fold, Apply, Owned;
    WatcherLooksFirst(s, ref);
    var s1 := s.(calls := map[0 := WillCredit(ref, 0)]);
    NothingOwned(s1, tx);
    LooksByHand(s1, 1, 1, tx);
    var s2 := s1.(calls := s1.calls[1 := WillConfirm(1, tx, false, 0)]);
    ConfirmsByHand(s2, 1, 1, tx);
    var s3 := Apply(s2, ConfirmByHand(1));
    WatcherConfirms(s3, ref);
    TwoEntries(Apply(s3, ConfirmByWatcher(0, 0, false, None)), a, b);
  }

  lemma WatcherLooksFirst(s: State, ref: string)
    requires s.store.ledger == [] && s.calls == map[] && s.store.deposits == map[ref := Unmatched]
    ensures Apply(s, LookByWatcher(0, ref)) == s.(calls := map[0 := WillCredit(ref, 0)])
  {
  }

  lemma WatcherConfirms(s: State, ref: string)
    requires 0 in s.calls && s.calls[0].WillCredit? && s.calls[0].ref == ref
    ensures Apply(s, ConfirmByWatcher(0, 0, false, None)) ==
            s.(store := Confirm(s.store, 0, Some(OnChain(ref)), false, None).0)
  {
  }

  predicate Trimmed(tx: string) { tx != "" && !IsSpace(tx[0]) && !IsSpace(tx[|tx| - 1]) }

  lemma PaddedHash(tx: string)
    requires Trimmed(tx)
    ensures Hash(tx) == Fold(tx) && Hash(tx + " ") == Fold(tx)
  {
    assert (tx + " ")[..|tx|] == tx;
    assert TrimStart(tx + " ") == tx + " ";
    assert TrimEnd(tx + " ") == TrimEnd(tx);
  }

  lemma PaddedUnowned(s: State, tx: string)
    requires Trimmed(tx) && s.store.deposits == map[] && |s.store.ledger| == 1
    requires s.store.ledger[0].key.Some? && s.store.ledger[0].key.value.Manual? &&
             s.store.ledger[0].key.value.tx == tx + " "
    ensures !Owned(s, tx)
  {
    PaddedHash(tx);
    assert Fold(tx) != "" && |Fold(tx + " ")| != |Fold(tx)|;
    ManualFoundIff(s.store.ledger[0].key.value, tx);
    hide ManualFor, Hash;
  }

  /** And without anybody in between: a hash typed with a space behind it is paid for, and
      nobody who looks for the hash finds that. */
  lemma PaddedHashPaysTwice(s: State, tx: string)
    requires TwoOpen(s) && s.store.deposits == map[] && Trimmed(tx)
    ensures !PaidOnce(Run(s, [LookByHand(0, 0, tx + " ", false), ConfirmByHand(0),
                              LookByHand(1, 1, tx, false), ConfirmByHand(1)]))
  {
    var padded := tx + " ";
    var a, b := Manual(s.store.invoices[0].currency, padded), Manual(s.store.invoices[1].currency, tx);
    assert |padded| != |tx| && padded != "";
    hide *;
    Run4(s, LookByHand(0, 0, padded, false), ConfirmByHand(0), LookByHand(1, 1, tx, false), ConfirmByHand(1));
    FirstPays(s, padded, a, b);
    SecondPays(Apply(Apply(s, LookByHand(0, 0, padded, false)), ConfirmByHand(0)), tx, a);
  }

  lemma FirstPays(s: State, tx: string, a: Key, b: Key)
    requires TwoOpen(s) && s.store.deposits == map[] && tx != "" && a != b
    requires a == Manual(s.store.invoices[0].currency, tx)
    ensures var t := Apply(Apply(s, LookByHand(0, 0, tx, false)), ConfirmByHand(0));
            && t.calls == map[] && t.store.deposits == map[] && |t.store.invoices| == 2
            && t.store.invoices[1] == s.store.invoices[1]
            && |t.store.ledger| == 1 && t.store.ledger[0].key == Some(a)
            && var u := Confirm(t.store, 1, Some(b), false, None).0;
               |u.ledger| == 2 && u.ledger[0].key == Some(a) && u.ledger[1].key == Some(b)
  {
    BothPaid(s.store, 0, a, b);
    NothingOwned(s, tx);
    hide Confirm, Apply, Owned;
    LooksByHand(s, 0, 0, tx);
    ConfirmsByHand(s.(calls := map[0 := WillConfirm(0, tx, false, 0)]), 0, 0, tx);
  }

  lemma SecondPays(s: State, tx: string, first: Key)
    requires Trimmed(tx) && s.calls == map[] && s.store.deposits == map[] && |s.store.invoices| == 2
    requires first.Manual? && first.tx == tx + " " && |s.store.ledger| == 1 && s.store.ledger[0].key == Some(first)
    requires var second := Some(Manual(s.store.invoices[1].currency, tx));
             var t := Confirm(s.store, 1, second, false, None).0;
             |t.ledger| == 2 && t.ledger[0].key == Some(first) && t.ledger[1].key == second
    ensures !PaidOnce(Apply(Apply(s, LookByHand(1, 1, tx, false)), ConfirmByHand(1)))
  {
    PaddedUnowned(s, tx);
    PaddedHash(tx);
    assert Fold(tx) != "";
    hide Confirm, Hash, Fold, Apply, Owned;
    LooksByHand(s, 1, 1, tx);
    var t := Apply(s, LookByHand(1, 1, tx, false));
    ConfirmsByHand(t, 1, 1, tx);
    TwoEntries(Apply(t, ConfirmByHand(1)), first, Manual(s.store.invoices[1].currency, tx));
  }
}
