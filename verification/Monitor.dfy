/**
  The billing monitor's watch over the ledger: which entries are worth a report,
  the cursor and the sent keys a pass leaves behind, and that every such entry is
  reported by exactly one pass. Times are seconds.
 */
module Monitor {
  import opened Common

  const FIRST_RUN_LOOKBACK := 3600
  const CURSOR_OVERLAP := 300
  const SENT_RETENTION := 604800

  datatype Entry = Entry(
    id: string, createdAt: int, amountCents: int, balanceAfter: int, kind: string, depositRef: string)

  const MAY_GO_NEGATIVE := {"storage", "adjustment", "refund", "chargeback"}
  const MANUAL_DEBITS := {"adjustment", "refund", "chargeback", "account_closed"}

  /** "neg:<entry>" and "credit:<entry>". */
  datatype Key = Negative(entry: string) | Credit(entry: string)

  predicate IsManual(e: Entry) { e.depositRef == "" || "manual:" <= e.depositRef }

  predicate NegativeCharge(e: Entry) { e.balanceAfter < 0 && e.kind !in MAY_GO_NEGATIVE }

  predicate Notable(e: Entry, large: int) {
    e.kind in MANUAL_DEBITS || (e.amountCents > 0 && (IsManual(e) || e.amountCents >= large))
  }

  /** Does this entry call for a report under this key? */
  predicate Calls(e: Entry, k: Key, large: int) {
    match k
    case Negative(id) => id == e.id && NegativeCharge(e)
    case Credit(id) => id == e.id && Notable(e, large)
  }

  /** A negative balance is reported unless the entry is one that may leave one; money
      given or taken by hand is, and so is any large credit. */
  lemma CallsIs(e: Entry, large: int)
    ensures Calls(e, Negative(e.id), large) <==>
            e.balanceAfter < 0 && e.kind != "storage" && e.kind != "adjustment" && e.kind != "refund" &&
            e.kind != "chargeback"
    ensures Calls(e, Credit(e.id), large) <==>
            || e.kind == "adjustment" || e.kind == "refund" || e.kind == "chargeback" || e.kind == "account_closed"
            || (e.amountCents > 0 &&
                (|| e.amountCents >= large || e.depositRef == ""
                 || (|e.depositRef| >= 7 && e.depositRef[..7] == "manual:")))
    ensures forall k :: Calls(e, k, large) ==> k.entry == e.id
  {
    assert "manual:" <= e.depositRef <==> |e.depositRef| >= 7 && e.depositRef[..7] == "manual:";
  }

  // --- One pass ------------------------------------------------------------------------

  function Negatives(ledger: seq<Entry>, since: int): seq<Key> {
    if ledger == [] then []
    else
      var e := ledger[|ledger| - 1];
      Negatives(ledger[..|ledger| - 1], since) +
        (if e.createdAt > since && NegativeCharge(e) then [Negative(e.id)] else [])
  }

  function Credits(ledger: seq<Entry>, since: int, large: int): seq<Key> {
    if ledger == [] then []
    else
      var e := ledger[|ledger| - 1];
      Credits(ledger[..|ledger| - 1], since, large) +
        (if e.createdAt > since && Notable(e, large) then [Credit(e.id)] else [])
  }

  /** Each key once, ever: the keys not sent before, which are now marked as sent. */
  function DueAll(keys: seq<Key>, sent: map<Key, int>, now: int): (map<Key, int>, seq<Key>) {
    if keys == [] then (sent, [])
    else
      var (marked, due) := DueAll(keys[..|keys| - 1], sent, now);
      var k := keys[|keys| - 1];
      if k in marked then (marked, due) else (marked[k := now], due + [k])
  }

  datatype State = State(cursor: Option<int>, sent: map<Key, int>)

  function Since(cursor: Option<int>, now: int): int {
    (if cursor.Some? then cursor.value else now - FIRST_RUN_LOOKBACK) - CURSOR_OVERLAP
  }

  function Pruned(sent: map<Key, int>, now: int): map<Key, int> {
    map k | k in sent && sent[k] >= now - SENT_RETENTION :: sent[k]
  }

  function Findings(ledger: seq<Entry>, since: int, large: int): seq<Key> {
    Negatives(ledger, since) + Credits(ledger, since, large)
  }

  function Pass(m: State, ledger: seq<Entry>, large: int, now: int): (State, seq<Key>) {
    var (sent, due) := DueAll(Findings(ledger, Since(m.cursor, now), large), m.sent, now);
    (State(Some(now), Pruned(sent, now)), due)
  }

  class BillingMonitor {
    var cursor: Option<int>
    var sent: map<Key, int>

    constructor ()
      ensures cursor == None && sent == map[]
    {
      cursor, sent := None, map[];
    }

    method RunOnce(ledger: seq<Entry>, large: int, now: int) returns (alerts: seq<Key>)
      modifies this
      ensures (State(cursor, sent), alerts) == Pass(State(old(cursor), old(sent)), ledger, large, now)
    {
      var since := (if cursor.Some? then cursor.value else now - FIRST_RUN_LOOKBACK) - CURSOR_OVERLAP;
      var negative: seq<Key> := [];
      var credit: seq<Key> := [];
      for i := 0 to |ledger|
        invariant negative == Negatives(ledger[..i], since)
        invariant credit == Credits(ledger[..i], since, large)
      {
        assert ledger[..i + 1][..i] == ledger[..i];
        var e := ledger[i];
        if e.createdAt > since && e.balanceAfter < 0 && e.kind !in MAY_GO_NEGATIVE {
          negative := negative + [Negative(e.id)];
        }
        if e.createdAt > since && (e.amountCents > 0 || e.kind in MANUAL_DEBITS) {
          if e.kind in MANUAL_DEBITS {
            credit := credit + [Credit(e.id)];
          } else if IsManual(e) {
            credit := credit + [Credit(e.id)];
          } else if e.amountCents >= large {
            credit := credit + [Credit(e.id)];
          }
        }
      }
      assert ledger[..|ledger|] == ledger;
      var findings := negative + credit;
      alerts := [];
      var marked := sent;
      for i := 0 to |findings|
        invariant (marked, alerts) == DueAll(findings[..i], sent, now)
        invariant unchanged(this)
      {
        assert findings[..i + 1][..i] == findings[..i];
        if findings[i] !in marked {
          marked := marked[findings[i] := now];
          alerts := alerts + [findings[i]];
        }
      }
      assert findings[..|findings|] == findings;
      cursor := Some(now);
      sent := map k | k in marked && marked[k] >= now - SENT_RETENTION :: marked[k];
    }
  }

  ghost predicate CalledFor(ledger: seq<Entry>, since: int, large: int, k: Key) {
    exists i :: 0 <= i < |ledger| && ledger[i].createdAt > since && Calls(ledger[i], k, large)
  }

  lemma CalledForSnoc(front: seq<Entry>, e: Entry, since: int, large: int, k: Key)
    ensures CalledFor(front + [e], since, large, k) <==>
            CalledFor(front, since, large, k) || (e.createdAt > since && Calls(e, k, large))
  {
    hide Calls;
    var ledger := front + [e];
    assert ledger[|front|] == e && forall i :: 0 <= i < |front| ==> ledger[i] == front[i];
    if i :| 0 <= i < |front| && front[i].createdAt > since && Calls(front[i], k, large) {
      assert ledger[i] == front[i];
    }
  }

  lemma FindingsSnoc(front: seq<Entry>, e: Entry, since: int, large: int, k: Key)
    ensures k in Findings(front + [e], since, large) <==>
            k in Findings(front, since, large) || (e.createdAt > since && Calls(e, k, large))
  {
    hide NegativeCharge, Notable;
    assert (front + [e])[..|front|] == front;
  }

  lemma {:induction false} FindingsAre(ledger: seq<Entry>, since: int, large: int, k: Key)
    ensures k in Findings(ledger, since, large) <==> CalledFor(ledger, since, large, k)
  {
    if ledger != [] {
      var front, e := ledger[..|ledger| - 1], ledger[|ledger| - 1];
      FindingsAre(front, since, large, k);
      hide *;
      assert ledger == front + [e];
      FindingsSnoc(front, e, since, large, k);
      CalledForSnoc(front, e, since, large, k);
    }
  }

  lemma {:induction false} DueIs(keys: seq<Key>, sent: map<Key, int>, now: int, k: Key)
    ensures var (marked, due) := DueAll(keys, sent, now);
            (k in due <==> k in keys && k !in sent) &&
            (k in marked <==> k in sent || k in keys) &&
            (k in marked ==> marked[k] == if k in sent then sent[k] else now)
  {
    if keys != [] {
      DueIs(keys[..|keys| - 1], sent, now, k);
      assert k in keys <==> k in keys[..|keys| - 1] || k == keys[|keys| - 1];
    }
  }

  /** What a pass does about one key. */
  lemma PassAbout(m: State, ledger: seq<Entry>, large: int, now: int, k: Key)
    ensures var (after, due) := Pass(m, ledger, large, now);
            var since := if m.cursor.Some? then m.cursor.value - 300 else now - 3900;
            var found := CalledFor(ledger, since, large, k);
            after.cursor == Some(now) && (k in due <==> found && k !in m.sent) &&
            (k in after.sent <==> (k in m.sent && m.sent[k] >= now - 7 * 86400) || (found && k !in m.sent)) &&
            (k in after.sent ==> after.sent[k] == if k in m.sent then m.sent[k] else now)
  {
    hide Findings, CalledFor;
    FindingsAre(ledger, Since(m.cursor, now), large, k);
    DueIs(Findings(ledger, Since(m.cursor, now), large), m.sent, now, k);
  }

  // --- Whole runs ------------------------------------------------------------------------

  datatype Step =
    | Appear(entry: Entry, at: int)    // an entry becomes visible
    | RunPass(now: int)

  datatype World = World(
    clock: int,
    ledger: seq<Entry>,          // in the order the entries became visible
    watched: int,                // how many had appeared before the first pass (-1: none yet)
    passed: nat,                 // how many had appeared before the last pass
    monitor: State,
    reports: seq<seq<Key>>)      // what each pass reported

  /** Time does not go back, ids are unique, and an entry becomes visible less than
      five minutes after it was stamped. */
  predicate Possible(w: World, step: Step) {
    match step
    case Appear(e, at) =>
      && at >= w.clock && e.createdAt <= at < e.createdAt + CURSOR_OVERLAP
      && forall i :: 0 <= i < |w.ledger| ==> w.ledger[i].id != e.id
    case RunPass(now) => now >= w.clock
  }

  function Apply(w: World, step: Step, large: int): World {
    if !Possible(w, step) then w
    else
      match step
      case Appear(e, at) => w.(clock := at, ledger := w.ledger + [e])
      case RunPass(now) =>
        var (m, due) := Pass(w.monitor, w.ledger, large, now);
        w.(clock := now, monitor := m, reports := w.reports + [due], passed := |w.ledger|,
           watched := if w.watched < 0 then |w.ledger| else w.watched)
  }

  function Run(w: World, steps: seq<Step>, large: int): World {
    if steps == [] then w else Apply(Run(w, steps[..|steps| - 1], large), steps[|steps| - 1], large)
  }

  function Start(clock: int): World { World(clock, [], -1, 0, State(None, map[]), []) }

  /** How many passes reported the key. */
  function Times(reports: seq<seq<Key>>, k: Key): nat {
    if reports == [] then 0
    else Times(reports[..|reports| - 1], k) + (if k in reports[|reports| - 1] then 1 else 0)
  }

  lemma TimesSnoc(reports: seq<seq<Key>>, due: seq<Key>, k: Key)
    ensures Times(reports + [due], k) == Times(reports, k) + (if k in due then 1 else 0)
  {
    assert (reports + [due])[..|reports|] == reports;
  }

  ghost predicate Bounds(w: World) {
    && w.passed <= |w.ledger| && w.watched <= w.passed
    && (w.monitor.cursor.None? <==> w.watched < 0)
    && (w.monitor.cursor.None? ==> w.passed == 0 && w.monitor.sent == map[])
    && (w.monitor.cursor.Some? ==> w.monitor.cursor.value <= w.clock)
    && (forall i, j :: 0 <= i < j < |w.ledger| ==> w.ledger[i].id != w.ledger[j].id)
    && (forall i :: 0 <= i < |w.ledger| ==> w.ledger[i].createdAt <= w.clock)
  }

  /** An entry no pass has seen yet: unreported, unmarked, and inside the next window. */
  ghost predicate Unseen(w: World, e: Entry, k: Key) {
    && Times(w.reports, k) == 0 && k !in w.monitor.sent
    && (w.monitor.cursor.Some? ==> e.createdAt > w.monitor.cursor.value - CURSOR_OVERLAP)
  }

  /** One a pass has seen: reported at most once, exactly once if it appeared after
      the first pass, and either still marked as sent or too old for any window. */
  ghost predicate Seen(w: World, i: int, e: Entry, k: Key) {
    && Times(w.reports, k) <= 1 && (i >= w.watched ==> Times(w.reports, k) == 1)
    && w.monitor.cursor.Some?
    && (k in w.monitor.sent ==> e.createdAt <= w.monitor.sent[k])
    && (k in w.monitor.sent || e.createdAt <= w.monitor.cursor.value - CURSOR_OVERLAP)
  }

  ghost predicate ItemFine(w: World, i: int, k: Key, large: int) {
    0 <= i < |w.ledger| && Calls(w.ledger[i], k, large) ==>
      if i < w.passed then Seen(w, i, w.ledger[i], k) else Unseen(w, w.ledger[i], k)
  }

  ghost predicate KeysKnown(w: World, large: int) {
    && (forall k :: k in w.monitor.sent ==> exists i :: 0 <= i < |w.ledger| && Calls(w.ledger[i], k, large))
    && (forall k :: Times(w.reports, k) > 0 ==> exists i :: 0 <= i < |w.ledger| && Calls(w.ledger[i], k, large))
  }

  ghost predicate Inv(w: World, large: int) {
    Bounds(w) && KeysKnown(w, large) && forall i, k :: ItemFine(w, i, k, large)
  }

  /** A key belongs to one entry. */
  lemma KeyIsOneEntrys(w: World, i: int, j: int, k: Key, large: int)
    requires Bounds(w) && 0 <= i < |w.ledger| && 0 <= j < |w.ledger|
    requires Calls(w.ledger[i], k, large) && Calls(w.ledger[j], k, large)
    ensures i == j
  {
  }

  /** Whether a pass finds anything under an entry's key is up to that entry. */
  lemma OnlyThisCalls(w: World, now: int, i: int, k: Key, large: int)
    requires Bounds(w) && 0 <= i < |w.ledger| && Calls(w.ledger[i], k, large)
    ensures var since := Since(w.monitor.cursor, now);
            CalledFor(w.ledger, since, large, k) <==> w.ledger[i].createdAt > since
  {
    var since := Since(w.monitor.cursor, now);
    hide Calls, Since;
    if CalledFor(w.ledger, since, large, k) {
      var j :| 0 <= j < |w.ledger| && w.ledger[j].createdAt > since && Calls(w.ledger[j], k, large);
      KeyIsOneEntrys(w, i, j, k, large);
    }
  }

  lemma PassItem(w: World, now: int, i: int, k: Key, large: int)
    requires Inv(w, large) && now >= w.clock
    ensures ItemFine(Apply(w, RunPass(now), large), i, k, large)
  {
    if 0 <= i < |w.ledger| && Calls(w.ledger[i], k, large) {
      assert ItemFine(w, i, k, large);
      PassAbout(w.monitor, w.ledger, large, now, k);
      OnlyThisCalls(w, now, i, k, large);
      hide Pass, Calls, KeysKnown, CalledFor, Times;
      TimesSnoc(w.reports, Pass(w.monitor, w.ledger, large, now).1, k);
    }
  }

  lemma PassKeysKnown(w: World, now: int, large: int)
    requires Inv(w, large) && now >= w.clock
    ensures KeysKnown(Apply(w, RunPass(now), large), large)
  {
    var after := Apply(w, RunPass(now), large);
    forall k | k in after.monitor.sent || Times(after.reports, k) > 0
      ensures exists i :: 0 <= i < |w.ledger| && Calls(w.ledger[i], k, large)
    {
      PassAbout(w.monitor, w.ledger, large, now, k);
      TimesSnoc(w.reports, Pass(w.monitor, w.ledger, large, now).1, k);
    }
  }

  lemma PassKeeps(w: World, now: int, large: int)
    requires Inv(w, large) && now >= w.clock
    ensures Inv(Apply(w, RunPass(now), large), large)
  {
    PassKeysKnown(w, now, large);
    var after := Apply(w, RunPass(now), large);
    forall i, k ensures ItemFine(after, i, k, large) { PassItem(w, now, i, k, large); }
    hide ItemFine, KeysKnown;
  }

  lemma AppearItem(w: World, e: Entry, at: int, i: int, k: Key, large: int)
    requires Inv(w, large) && Possible(w, Appear(e, at))
    ensures ItemFine(Apply(w, Appear(e, at), large), i, k, large)
  {
    var after := Apply(w, Appear(e, at), large);
    if 0 <= i < |after.ledger| && Calls(after.ledger[i], k, large) {
      if i < |w.ledger| {
        assert ItemFine(w, i, k, large);
      } else {
        assert forall j :: 0 <= j < |w.ledger| ==> !Calls(w.ledger[j], k, large);
      }
    }
  }

  lemma AppearKeeps(w: World, e: Entry, at: int, large: int)
    requires Inv(w, large) && Possible(w, Appear(e, at))
    ensures Inv(Apply(w, Appear(e, at), large), large)
  {
    var after := Apply(w, Appear(e, at), large);
    forall i, k ensures ItemFine(after, i, k, large) { AppearItem(w, e, at, i, k, large); }
    hide ItemFine, Calls;
    assert forall i :: 0 <= i < |w.ledger| ==> after.ledger[i] == w.ledger[i];
  }

  lemma {:induction false} RunKeeps(clock: int, steps: seq<Step>, large: int)
    ensures Inv(Run(Start(clock), steps, large), large)
  {
    if steps != [] {
      var w, step := Run(Start(clock), steps[..|steps| - 1], large), steps[|steps| - 1];
      RunKeeps(clock, steps[..|steps| - 1], large);
      hide Inv;
      if Possible(w, step) {
        match step
        case Appear(e, at) => AppearKeeps(w, e, at, large);
        case RunPass(now) => PassKeeps(w, now, large);
      }
    }
  }

  /** Exactly once: whatever the gaps between passes and despite the weekly clean-up,
      an entry that appeared after the first pass and calls for a report has been
      reported by exactly one pass once a pass has run since; one from before the
      first pass by at most one. */
  lemma ReportedExactlyOnce(clock: int, steps: seq<Step>, large: int, i: nat, k: Key)
    requires var w := Run(Start(clock), steps, large); i < w.passed <= |w.ledger| && Calls(w.ledger[i], k, large)
    ensures Times(Run(Start(clock), steps, large).reports, k) <= 1
    ensures i >= Run(Start(clock), steps, large).watched ==> Times(Run(Start(clock), steps, large).reports, k) == 1
  {
    RunKeeps(clock, steps, large);
    assert ItemFine(Run(Start(clock), steps, large), i, k, large);
  }

  /** So the next pass after it appeared reports it: one that calls for a report and
      becomes visible within five minutes of its stamp, whenever the passes around it run. */
  lemma NextPassReports(clock: int, first: int, e: Entry, at: int, second: int, large: int, k: Key)
    requires clock <= first <= at <= second && e.createdAt <= at < e.createdAt + 300 && Calls(e, k, large)
    ensures var w := Run(Start(clock), [RunPass(first), Appear(e, at), RunPass(second)], large);
            w.ledger == [e] && w.passed == 1 && |w.reports| == 2 && Times(w.reports, k) == 1
  {
    var steps := [RunPass(first), Appear(e, at), RunPass(second)];
    ThreeSteps(clock, steps, large);
    ReportedExactlyOnce(clock, steps, large, 0, k);
  }

  lemma ThreeSteps(clock: int, steps: seq<Step>, large: int)
    requires |steps| == 3 && steps[0].RunPass? && steps[1].Appear? && steps[2].RunPass?
    requires clock <= steps[0].now <= steps[1].at <= steps[2].now
    requires steps[1].entry.createdAt <= steps[1].at < steps[1].entry.createdAt + 300
    ensures var w := Run(Start(clock), steps, large);
            w.ledger == [steps[1].entry] && w.passed == 1 && w.watched == 0 && |w.reports| == 2
  {
    var w1 := Apply(Start(clock), steps[0], large);
    var w2 := Apply(w1, steps[1], large);
    assert steps[..2][..1] == steps[..1] && steps[..1][..0] == [];
    assert Run(Start(clock), steps[..1], large) == w1;
    assert Run(Start(clock), steps[..2], large) == w2;
    assert Run(Start(clock), steps, large) == Apply(w2, steps[2], large);
    hide Run, Pass;
  }

  /** And nothing else is reported. */
  lemma OnlyCallsAreReported(clock: int, steps: seq<Step>, large: int, k: Key)
    requires Times(Run(Start(clock), steps, large).reports, k) > 0
    ensures var ledger := Run(Start(clock), steps, large).ledger;
            exists i :: 0 <= i < |ledger| && Calls(ledger[i], k, large)
  {
    RunKeeps(clock, steps, large);
  }

  /** Five minutes is the exact margin: an entry that becomes visible right after a
      pass, that long after its stamp or longer, is outside every later window; any
      sooner and the next pass sees it. */
  lemma LateEntryIsSeenIff(cursor: int, createdAt: int, visibleAt: int, now: int)
    requires cursor == visibleAt <= now
    ensures createdAt > Since(Some(cursor), now) <==> visibleAt - createdAt < 300
  {
  }
}
