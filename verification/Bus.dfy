/**
  The durable bus: one delivery row per event and consumer, claimed in order,
  marked by its worker, and put back when its worker is gone. A row's id is its
  position, and rows are in order of creation.
 */
module Bus {
  import opened Common

  datatype Status = Pending | Processing | Completed | Failed

  datatype Event = Event(subject: string, payload: string, status: Status, availableAt: int, updatedAt: int)

  datatype Delivery = Delivery(
    event: nat, consumer: string, subject: string, status: Status, attempts: nat, availableAt: int, updatedAt: int)

  datatype State = State(events: seq<Event>, deliveries: seq<Delivery>)

  function Consumers(subject: string): seq<string> {
    if subject == "build.accepted" || subject == "build.job.progress" then ["builder-worker"]
    else if subject == "deployment.requested" || subject == "invocation.recorded" || subject == "usage.recorded"
    then ["control-plane-worker"]
    else if subject == "probe.result.recorded" || subject == "validator.weights.published" then ["validator-worker"]
    else []
  }

  // --- Specifications of the operations --------------------------------------------

  function Fresh(event: nat, subject: string, consumers: seq<string>, now: int): seq<Delivery> {
    seq(|consumers|, i requires 0 <= i < |consumers| => Delivery(event, consumers[i], subject, Pending, 0, now, now))
  }

  /** The event and all of its deliveries, together. */
  function Published(s: State, subject: string, payload: string, now: int): State {
    State(s.events + [Event(subject, payload, Pending, now, now)],
          s.deliveries + Fresh(|s.events|, subject, Consumers(subject), now))
  }

  predicate Claimable(d: Delivery, consumer: string, subjects: set<string>, now: int) {
    d.consumer == consumer && d.subject in subjects && d.status == Pending && d.availableAt <= now
  }

  /** The first `limit` claimable rows from position i on. */
  function Select(ds: seq<Delivery>, i: nat, consumer: string, subjects: set<string>, limit: nat, now: int): seq<nat>
    requires i <= |ds|
    decreases |ds| - i
  {
    if i == |ds| || limit == 0 then []
    else if Claimable(ds[i], consumer, subjects, now)
    then [i] + Select(ds, i + 1, consumer, subjects, limit - 1, now)
    else Select(ds, i + 1, consumer, subjects, limit, now)
  }

  function Claim(d: Delivery, now: int): Delivery {
    d.(status := Processing, attempts := d.attempts + 1, updatedAt := now)
  }

  function Claimed(s: State, ids: seq<nat>, now: int): State {
    s.(deliveries := seq(|s.deliveries|, i requires 0 <= i < |s.deliveries| =>
                           if i in ids then Claim(s.deliveries[i], now) else s.deliveries[i]))
  }

  function Marked(s: State, id: nat, status: Status, retryAfter: Option<nat>, now: int): State {
    if id >= |s.deliveries| then s
    else
      var d := s.deliveries[id];
      var at := if retryAfter.Some? then now + retryAfter.value else d.availableAt;
      var t := s.(deliveries := s.deliveries[id := d.(status := status, availableAt := at, updatedAt := now)]);
      if d.event >= |t.events| then t
      else
        var e := t.events[d.event];
        t.(events := t.events[d.event := e.(
             status := status, availableAt := if retryAfter.Some? then at else e.availableAt, updatedAt := now)])
  }

  predicate Stale(d: Delivery, consumer: string, subjects: set<string>, threshold: int) {
    d.consumer == consumer && d.subject in subjects && d.status == Processing && d.updatedAt <= threshold
  }

  function Returned(d: Delivery, now: int): Delivery { d.(status := Pending, availableAt := now, updatedAt := now) }

  function Requeued(s: State, consumer: string, subjects: set<string>, threshold: int, now: int): seq<Delivery> {
    seq(|s.deliveries|, i requires 0 <= i < |s.deliveries| =>
      if Stale(s.deliveries[i], consumer, subjects, threshold) then Returned(s.deliveries[i], now) else s.deliveries[i])
  }

  function Reopened(e: Event, now: int): Event { e.(status := Pending, availableAt := now, updatedAt := now) }

  /** One of the first n deliveries is stale and belongs to this event. */
  predicate StaleFor(ds: seq<Delivery>, n: nat, event: int, consumer: string, subjects: set<string>, threshold: int)
    requires n <= |ds|
  {
    exists i :: 0 <= i < n && ds[i].event == event && Stale(ds[i], consumer, subjects, threshold)
  }

  /** The stale deliveries and their events go back together. */
  function PutBack(s: State, consumer: string, subjects: set<string>, threshold: int, now: int): State {
    State(seq(|s.events|, e requires 0 <= e < |s.events| =>
            if StaleFor(s.deliveries, |s.deliveries|, e, consumer, subjects, threshold)
            then Reopened(s.events[e], now) else s.events[e]),
          Requeued(s, consumer, subjects, threshold, now))
  }

  lemma StaleForSnoc(ds: seq<Delivery>, n: nat, consumer: string, subjects: set<string>, threshold: int)
    requires n < |ds|
    ensures forall e :: StaleFor(ds, n + 1, e, consumer, subjects, threshold) <==>
              StaleFor(ds, n, e, consumer, subjects, threshold) ||
              (ds[n].event == e && Stale(ds[n], consumer, subjects, threshold))
  {
  }

  /** Every delivery belongs to an event that exists. */
  predicate Linked(s: State) {
    forall i :: 0 <= i < |s.deliveries| ==> s.deliveries[i].event < |s.events|
  }

  /** What a claim returns: claimable rows, each once, oldest first, and nothing
      claimable is passed over unless the limit was reached. */
  predicate OldestFirst(ds: seq<Delivery>, ids: seq<nat>, from: nat, consumer: string, subjects: set<string>,
      limit: nat, now: int) {
    && |ids| <= limit
    && (forall k :: 0 <= k < |ids| ==> from <= ids[k] < |ds| && Claimable(ds[ids[k]], consumer, subjects, now))
    && (forall k, l :: 0 <= k < l < |ids| ==> ids[k] < ids[l])
    && (forall i :: from <= i < |ds| && Claimable(ds[i], consumer, subjects, now) && i !in ids ==>
          |ids| == limit && forall k :: 0 <= k < |ids| ==> ids[k] < i)
  }

  lemma {:induction false} SelectIsOldestFirst(
    ds: seq<Delivery>, i: nat, consumer: string, subjects: set<string>, limit: nat, now: int)
    requires i <= |ds|
    ensures OldestFirst(ds, Select(ds, i, consumer, subjects, limit, now), i, consumer, subjects, limit, now)
    decreases |ds| - i
  {
    if i < |ds| && limit > 0 {
      hide Claimable;
      if Claimable(ds[i], consumer, subjects, now) {
        SelectIsOldestFirst(ds, i + 1, consumer, subjects, limit - 1, now);
      } else {
        SelectIsOldestFirst(ds, i + 1, consumer, subjects, limit, now);
      }
    }
  }

  /** Which rows that are: the consumer's own, on a subject it asked for, waiting, and due;
      with room left, all of them. */
  lemma SelectedAre(ds: seq<Delivery>, consumer: string, subjects: set<string>, limit: nat, now: int, i: nat)
    requires i < |ds|
    ensures var ids, d := Select(ds, 0, consumer, subjects, limit, now), ds[i];
            && |ids| <= limit
            && (i in ids ==> d.status == Pending && d.availableAt <= now && d.consumer == consumer &&
                             d.subject in subjects)
            && (i !in ids ==> d.status != Pending || d.availableAt > now || d.consumer != consumer ||
                              d.subject !in subjects || |ids| == limit)
  {
    SelectIsOldestFirst(ds, 0, consumer, subjects, limit, now);
    hide Select;
  }

  lemma SelectStep(ds: seq<Delivery>, ids: seq<nat>, i: nat, consumer: string, subjects: set<string>, limit: nat,
      now: int)
    requires i < |ds| && |ids| < limit
    ensures ids + Select(ds, i, consumer, subjects, limit - |ids|, now) ==
            if Claimable(ds[i], consumer, subjects, now)
            then ids + [i] + Select(ds, i + 1, consumer, subjects, limit - |ids| - 1, now)
            else ids + Select(ds, i + 1, consumer, subjects, limit - |ids|, now)
  {
    hide Claimable;
  }

  lemma SelectEnds(ds: seq<Delivery>, i: nat, consumer: string, subjects: set<string>, limit: nat, now: int)
    requires i == |ds| || (i < |ds| && limit == 0)
    ensures Select(ds, i, consumer, subjects, limit, now) == []
  {
  }

  /** Who hears of what. */
  lemma Routes(subject: string)
    ensures Consumers("deployment.requested") == ["control-plane-worker"]
    ensures Consumers("usage.recorded") == Consumers("invocation.recorded") == ["control-plane-worker"]
    ensures Consumers("build.accepted") == Consumers("build.job.progress") == ["builder-worker"]
    ensures Consumers("probe.result.recorded") == Consumers("validator.weights.published") == ["validator-worker"]
    ensures Consumers(subject) == [] <==>
            && subject != "deployment.requested" && subject != "usage.recorded" && subject != "invocation.recorded"
            && subject != "build.accepted" && subject != "build.job.progress"
            && subject != "probe.result.recorded" && subject != "validator.weights.published"
  {
  }

  /** A claim is stamped and counted; the other rows, and what was sent, stay. */
  lemma ClaimedIs(s: State, ids: seq<nat>, now: int, i: nat)
    requires i < |s.deliveries|
    ensures var t, d := Claimed(s, ids, now), s.deliveries[i];
            && t.events == s.events && |t.deliveries| == |s.deliveries|
            && t.deliveries[i] == if i in ids
                                  then Delivery(d.event, d.consumer, d.subject, Processing, d.attempts + 1,
                                                d.availableAt, now)
                                  else d
  {
  }

  /** A mark is on the delivery and on its event, which may be claimed again only after
      the delay, if one is given. */
  lemma MarkedIs(s: State, id: nat, status: Status, retryAfter: Option<nat>, now: int, i: nat)
    requires id < |s.deliveries| && s.deliveries[id].event < |s.events|
    ensures var t, d := Marked(s, id, status, retryAfter, now), s.deliveries[id];
            && |t.deliveries| == |s.deliveries| && |t.events| == |s.events|
            && (i < |s.deliveries| && i != id ==> t.deliveries[i] == s.deliveries[i])
            && (i < |s.events| && i != d.event ==> t.events[i] == s.events[i])
            && t.deliveries[id] == Delivery(d.event, d.consumer, d.subject, status, d.attempts,
                                            if retryAfter.None? then d.availableAt else now + retryAfter.value, now)
            && var e := s.events[d.event];
               t.events[d.event] == Event(e.subject, e.payload, status,
                                          if retryAfter.None? then e.availableAt else now + retryAfter.value, now)
  {
  }

  /** Only what has been processed for too long goes back, to be claimed at once; its
      attempts stay counted. */
  lemma RequeuedIs(s: State, consumer: string, subjects: set<string>, threshold: int, now: int, i: nat)
    requires i < |s.deliveries|
    ensures var d, t := s.deliveries[i], Requeued(s, consumer, subjects, threshold, now);
            && |t| == |s.deliveries|
            && t[i] == if d.status != Processing || d.updatedAt > threshold || d.consumer != consumer ||
                          d.subject !in subjects
                       then d
                       else Delivery(d.event, d.consumer, d.subject, Pending, d.attempts, now, now)
    ensures forall e: Event :: Reopened(e, now) == Event(e.subject, e.payload, Pending, now, now)
  {
  }

  /** And only their events go back with them. */
  lemma EventPutBack(s: State, consumer: string, subjects: set<string>, threshold: int, now: int, e: nat)
    requires e < |s.events|
    ensures var t := PutBack(s, consumer, subjects, threshold, now);
            && |t.events| == |s.events|
            && t.events[e] ==
               if exists i :: 0 <= i < |s.deliveries| && s.deliveries[i].event == e &&
                              s.deliveries[i].status == Processing && s.deliveries[i].updatedAt <= threshold &&
                              s.deliveries[i].consumer == consumer && s.deliveries[i].subject in subjects
               then Event(s.events[e].subject, s.events[e].payload, Pending, now, now) else s.events[e]
  {
    hide Requeued;
    assert forall i :: 0 <= i < |s.deliveries| && s.deliveries[i].event == e &&
                       Stale(s.deliveries[i], consumer, subjects, threshold) ==>
             StaleFor(s.deliveries, |s.deliveries|, e, consumer, subjects, threshold);
  }

  // --- The bus ------------------------------------------------------------------------

  class SubjectBus {
    var events: seq<Event>
    var deliveries: seq<Delivery>

    ghost function View(): State
      reads this
    {
      State(events, deliveries)
    }

    constructor ()
      ensures View() == State([], [])
    {
      events, deliveries := [], [];
    }

    method Publish(subject: string, payload: string, now: int) returns (event: nat)
      modifies this
      ensures View() == Published(old(View()), subject, payload, now)
      ensures event == |old(events)|
    {
      event := |events|;
      var consumers := Consumers(subject);
      var added: seq<Delivery> := [];
      for i := 0 to |consumers|
        invariant unchanged(this)
        invariant |added| == i
        invariant forall k :: 0 <= k < i ==> added[k] == Delivery(event, consumers[k], subject, Pending, 0, now, now)
      {
        added := added + [Delivery(event, consumers[i], subject, Pending, 0, now, now)];
      }
      events := events + [Event(subject, payload, Pending, now, now)];
      deliveries := deliveries + added;
    }

    /** The claim's query. */
    method FindPending(consumer: string, subjects: set<string>, limit: nat, now: int) returns (ids: seq<nat>)
      ensures ids == Select(deliveries, 0, consumer, subjects, limit, now)
      ensures OldestFirst(deliveries, ids, 0, consumer, subjects, limit, now)
    {
      SelectIsOldestFirst(deliveries, 0, consumer, subjects, limit, now);
      hide OldestFirst, Claimable, Select;
      ids := [];
      var i := 0;
      while i < |deliveries| && |ids| < limit
        invariant 0 <= i <= |deliveries| && |ids| <= limit
        invariant ids + Select(deliveries, i, consumer, subjects, limit - |ids|, now) ==
                  Select(deliveries, 0, consumer, subjects, limit, now)
      {
        SelectStep(deliveries, ids, i, consumer, subjects, limit, now);
        if Claimable(deliveries[i], consumer, subjects, now) {
          ids := ids + [i];
        }
        i := i + 1;
      }
      SelectEnds(deliveries, i, consumer, subjects, limit - |ids|, now);
    }

    method ClaimPending(consumer: string, subjects: set<string>, limit: nat, now: int) returns (ids: seq<nat>)
      modifies this
      ensures ids == Select(old(deliveries), 0, consumer, subjects, limit, now)
      ensures OldestFirst(old(deliveries), ids, 0, consumer, subjects, limit, now)
      ensures View() == Claimed(old(View()), ids, now)
    {
      hide OldestFirst, Select;
      ids := FindPending(consumer, subjects, limit, now);
      var updated: seq<Delivery> := [];
      for k := 0 to |deliveries|
        invariant unchanged(this)
        invariant |updated| == k
        invariant forall l :: 0 <= l < k ==>
                    updated[l] == if l in ids then Claim(deliveries[l], now) else deliveries[l]
      {
        updated := updated + [if k in ids then Claim(deliveries[k], now) else deliveries[k]];
      }
      deliveries := updated;
    }

    method MarkCompleted(id: nat, now: int)
      modifies this
      ensures View() == Marked(old(View()), id, Completed, None, now)
    {
      UpdateStatus(id, Completed, None, now);
    }

    method MarkFailed(id: nat, retryable: bool, retryAfter: Option<nat>, now: int)
      modifies this
      ensures View() == Marked(old(View()), id, if retryable then Pending else Failed, retryAfter, now)
    {
      UpdateStatus(id, if retryable then Pending else Failed, retryAfter, now);
    }

    method UpdateStatus(id: nat, status: Status, retryAfter: Option<nat>, now: int)
      modifies this
      ensures View() == Marked(old(View()), id, status, retryAfter, now)
    {
      if id >= |deliveries| {
        return;
      }
      var d := deliveries[id];
      d := d.(status := status, updatedAt := now);
      if retryAfter.Some? {
        d := d.(availableAt := now + retryAfter.value);
      }
      deliveries := deliveries[id := d];
      if d.event < |events| {
        var e := events[d.event].(status := status, updatedAt := now);
        if retryAfter.Some? {
          e := e.(availableAt := d.availableAt);
        }
        events := events[d.event := e];
      }
    }

    /** Returns the deliveries put back, oldest first; their event rows are set to
        pending with them. */
    method RequeueStaleProcessing(consumer: string, subjects: set<string>, threshold: int, now: int)
        returns (ids: seq<nat>)
      modifies this
      ensures deliveries == Requeued(old(View()), consumer, subjects, threshold, now)
      ensures |events| == |old(events)|
      ensures forall e :: 0 <= e < |events| ==>
                events[e] == if StaleFor(old(deliveries), |old(deliveries)|, e, consumer, subjects, threshold)
                             then Reopened(old(events)[e], now) else old(events)[e]
      ensures forall i: nat :: i in ids <==>
                i < |old(deliveries)| && Stale(old(deliveries)[i], consumer, subjects, threshold) &&
                  old(deliveries)[i].event < |events|
      ensures forall k, l :: 0 <= k < l < |ids| ==> ids[k] < ids[l]
    {
      ids := [];
      var updated: seq<Delivery> := [];
      var rows := events;
      for i := 0 to |deliveries|
        invariant unchanged(this)
        invariant |rows| == |events| && |updated| == i
        invariant forall k :: 0 <= k < i ==>
                    updated[k] ==
                    if Stale(deliveries[k], consumer, subjects, threshold)
                    then Returned(deliveries[k], now) else deliveries[k]
        invariant forall e :: 0 <= e < |rows| ==>
                    rows[e] == if StaleFor(deliveries, i, e, consumer, subjects, threshold)
                               then Reopened(events[e], now) else events[e]
        invariant forall k: nat :: k in ids <==>
                    k < i && Stale(deliveries[k], consumer, subjects, threshold) && deliveries[k].event < |events|
        invariant forall k, l :: 0 <= k < l < |ids| ==> ids[k] < ids[l]
      {
        hide Requeued, Stale;
        StaleForSnoc(deliveries, i, consumer, subjects, threshold);
        hide StaleFor;
        var d := deliveries[i];
        if Stale(d, consumer, subjects, threshold) {
          d := Returned(d, now);
          if d.event < |rows| {
            rows := rows[d.event := Reopened(rows[d.event], now)];
            assert forall k :: 0 <= k < |ids| ==> ids[k] in ids;
            ids := ids + [i];
          }
        }
        updated := updated + [d];
      }
      deliveries := updated;
      events := rows;
    }
  }

  // --- Whole runs ------------------------------------------------------------------------

  datatype Step =
    | Publish(subject: string, payload: string, now: int)
    | ClaimSome(consumer: string, subjects: set<string>, limit: nat, now: int)
    | Mark(id: nat, status: Status, retryAfter: Option<nat>, now: int)
    | RequeueStale(consumer: string, subjects: set<string>, threshold: int, now: int)

  /** The tables, and every id a claim has returned so far. */
  datatype History = History(bus: State, claims: seq<nat>)

  function Apply(h: History, step: Step): History {
    match step
    case Publish(subject, payload, now) => h.(bus := Published(h.bus, subject, payload, now))
    case ClaimSome(consumer, subjects, limit, now) =>
      var ids := Select(h.bus.deliveries, 0, consumer, subjects, limit, now);
      History(Claimed(h.bus, ids, now), h.claims + ids)
    case Mark(id, status, after, now) => h.(bus := Marked(h.bus, id, status, after, now))
    case RequeueStale(consumer, subjects, threshold, now) =>
      h.(bus := PutBack(h.bus, consumer, subjects, threshold, now))
  }

  function Run(h: History, steps: seq<Step>): History {
    if steps == [] then h else Apply(Run(h, steps[..|steps| - 1]), steps[|steps| - 1])
  }

  function Count(ids: seq<nat>, id: nat): nat {
    if ids == [] then 0 else (if ids[0] == id then 1 else 0) + Count(ids[1..], id)
  }

  lemma {:induction false} CountConcat(a: seq<nat>, b: seq<nat>, id: nat)
    ensures Count(a + b, id) == Count(a, id) + Count(b, id)
  {
    if a == [] {
      assert a + b == b;
    } else {
      CountConcat(a[1..], b, id);
      assert (a + b)[1..] == a[1..] + b;
    }
  }

  lemma {:induction false} CountIncreasing(ids: seq<nat>, id: nat)
    requires forall k, l :: 0 <= k < l < |ids| ==> ids[k] < ids[l]
    ensures Count(ids, id) == if id in ids then 1 else 0
  {
    if ids != [] {
      CountIncreasing(ids[1..], id);
      if ids[0] == id {
        assert id !in ids[1..];
      } else {
        assert id in ids <==> id in ids[1..];
      }
    }
  }

  const EMPTY := History(State([], []), [])

  /** Attempts are claims: over every run, a delivery's counter is the number of
      times a claim returned it; ids that were never published were never claimed. */
  lemma {:induction false} AttemptsAreClaims(steps: seq<Step>, id: nat)
    ensures Linked(Run(EMPTY, steps).bus)
    ensures Count(Run(EMPTY, steps).claims, id) ==
            if id < |Run(EMPTY, steps).bus.deliveries| then Run(EMPTY, steps).bus.deliveries[id].attempts else 0
  {
    if steps != [] {
      var h := Run(EMPTY, steps[..|steps| - 1]);
      AttemptsAreClaims(steps[..|steps| - 1], id);
      AttemptsStep(h, steps[|steps| - 1], id);
    }
  }

  lemma AttemptsStep(h: History, step: Step, id: nat)
    requires Linked(h.bus)
    requires Count(h.claims, id) == if id < |h.bus.deliveries| then h.bus.deliveries[id].attempts else 0
    ensures var t := Apply(h, step);
            Linked(t.bus) && Count(t.claims, id) == if id < |t.bus.deliveries| then t.bus.deliveries[id].attempts else 0
  {
    hide Select;
    match step
    case Publish(_, _, _) =>
    case ClaimSome(consumer, subjects, limit, now) =>
      var ids := Select(h.bus.deliveries, 0, consumer, subjects, limit, now);
      SelectIsOldestFirst(h.bus.deliveries, 0, consumer, subjects, limit, now);
      CountConcat(h.claims, ids, id);
      CountIncreasing(ids, id);
    case Mark(_, _, _, _) =>
    case RequeueStale(_, _, _, _) =>
  }

  /** Publishing is all or nothing: the run gains the event and one waiting delivery
      for each consumer of its subject, and nothing that was there changes. */
  lemma PublishReachesEachConsumerOnce(s: State, subject: string, payload: string, now: int, consumer: string)
    ensures var t := Published(s, subject, payload, now);
            t.events == s.events + [Event(subject, payload, Pending, now, now)] && s.deliveries <= t.deliveries &&
            (consumer in Consumers(subject) <==>
             exists i :: |s.deliveries| <= i < |t.deliveries| && t.deliveries[i].consumer == consumer) &&
            (forall i, j :: |s.deliveries| <= i < j < |t.deliveries| ==>
              t.deliveries[i].consumer != t.deliveries[j].consumer) &&
            (forall i :: |s.deliveries| <= i < |t.deliveries| ==>
               t.deliveries[i] == Delivery(|s.events|, t.deliveries[i].consumer, subject, Pending, 0, now, now))
  {
    var t := Published(s, subject, payload, now);
    var cs := Consumers(subject);
    assert |cs| <= 1;
    forall k | 0 <= k < |cs| ensures t.deliveries[|s.deliveries| + k].consumer == cs[k] {
    }
    if consumer in cs {
      assert t.deliveries[|s.deliveries|].consumer == consumer;
    }
  }

  /** Does this step put the delivery back among the pending ones? */
  predicate GivesBack(s: State, step: Step, id: nat) {
    match step
    case Mark(m, status, _, _) => m == id && status == Pending
    case RequeueStale(consumer, subjects, threshold, _) =>
      id < |s.deliveries| && Stale(s.deliveries[id], consumer, subjects, threshold)
    case _ => false
  }

  /** A delivery is returned by two claims only if it went back to pending between
      them: once it is not pending, a run that never gives it back never claims it. */
  lemma {:induction false} NoSecondClaimUnlessGivenBack(h: History, steps: seq<Step>, id: nat)
    requires id < |h.bus.deliveries| && h.bus.deliveries[id].status != Pending
    requires forall k :: 0 <= k < |steps| ==> !GivesBack(Run(h, steps[..k]).bus, steps[k], id)
    ensures Count(Run(h, steps).claims, id) == Count(h.claims, id)
    ensures id < |Run(h, steps).bus.deliveries| && Run(h, steps).bus.deliveries[id].status != Pending
  {
    if steps != [] {
      var last := |steps| - 1;
      var front := steps[..last];
      assert forall k :: 0 <= k < last ==> front[..k] == steps[..k];
      NoSecondClaimUnlessGivenBack(h, front, id);
      StaysClaimed(Run(h, front), steps[last], id);
    }
  }

  lemma StaysClaimed(h: History, step: Step, id: nat)
    requires id < |h.bus.deliveries| && h.bus.deliveries[id].status != Pending
    requires !GivesBack(h.bus, step, id)
    ensures Count(Apply(h, step).claims, id) == Count(h.claims, id)
    ensures id < |Apply(h, step).bus.deliveries| && Apply(h, step).bus.deliveries[id].status != Pending
  {
    hide Select;
    if step.ClaimSome? {
      var ids := Select(h.bus.deliveries, 0, step.consumer, step.subjects, step.limit, step.now);
      SelectIsOldestFirst(h.bus.deliveries, 0, step.consumer, step.subjects, step.limit, step.now);
      assert id !in ids;
      CountConcat(h.claims, ids, id);
      CountIncreasing(ids, id);
    }
  }

  /** A claim finds the one row there is, if it is waiting and due. */
  lemma ClaimsOne(h: History, d: Delivery, limit: nat, now: int)
    requires h.bus.deliveries == [d] && limit >= 1 && d.status == Pending && d.availableAt <= now
    ensures Apply(h, ClaimSome(d.consumer, {d.subject}, limit, now)) ==
            History(State(h.bus.events, [d.(status := Processing, attempts := d.attempts + 1, updatedAt := now)]),
                    h.claims + [0])
  {
    assert Select([d], 0, d.consumer, {d.subject}, limit, now) == [0];
    hide Select;
    assert Claimed(h.bus, [0], now).deliveries ==
           [d.(status := Processing, attempts := d.attempts + 1, updatedAt := now)];
  }

  lemma RunSnoc(h: History, steps: seq<Step>, step: Step)
    ensures Run(h, steps + [step]) == Apply(Run(h, steps), step)
  {
    hide Apply;
    assert (steps + [step])[..|steps|] == steps;
  }

  /** A request whose worker is gone is claimed a second time, once it was put back. */
  lemma StaleIsClaimedAgain(payload: string, sent: int, claimed: int, back: int, again: int)
    requires sent <= claimed <= back <= again
    ensures var c, subject := "control-plane-worker", "deployment.requested";
            var h := Run(EMPTY, [Publish(subject, payload, sent), ClaimSome(c, {subject}, 1, claimed)] +
                                [RequeueStale(c, {subject}, claimed, back)] + [ClaimSome(c, {subject}, 1, again)]);
            && h.claims == [0, 0] && h.bus.events == [Event(subject, payload, Pending, back, back)]
            && h.bus.deliveries == [Delivery(0, c, subject, Processing, 2, back, again)]
  {
    var c, subject := "control-plane-worker", "deployment.requested";
    var publish, claim := Publish(subject, payload, sent), ClaimSome(c, {subject}, 1, claimed);
    var requeue := RequeueStale(c, {subject}, claimed, back);
    assert [] + [publish] == [publish] && [publish] + [claim] == [publish, claim];
    RunSnoc(EMPTY, [], publish);
    RunSnoc(EMPTY, [publish], claim);
    RunSnoc(EMPTY, [publish, claim], requeue);
    RunSnoc(EMPTY, [publish, claim] + [requeue], ClaimSome(c, {subject}, 1, again));
    var d := Delivery(0, c, subject, Pending, 0, sent, sent);
    var h1 := Apply(EMPTY, publish);
    assert h1 == History(State([Event(subject, payload, Pending, sent, sent)], [d]), []);
    ClaimsOne(h1, d, 1, claimed);
    var h2 := Apply(h1, claim);
    OneGoesBack(h2, requeue);
    hide Apply;
    ClaimsOne(Apply(h2, requeue), d.(attempts := 1, availableAt := back, updatedAt := back), 1, again);
  }

  lemma OneGoesBack(h: History, step: Step)
    requires step.RequeueStale? && |h.bus.events| == 1 && |h.bus.deliveries| == 1
    requires h.bus.deliveries[0].event == 0 && h.bus.deliveries[0].status == Processing
    requires h.bus.deliveries[0].consumer == step.consumer && step.subjects == {h.bus.deliveries[0].subject}
    requires h.bus.deliveries[0].updatedAt <= step.threshold
    ensures var e, d := h.bus.events[0], h.bus.deliveries[0];
            Apply(h, step) ==
            h.(bus := State([e.(status := Pending, availableAt := step.now, updatedAt := step.now)],
                            [d.(status := Pending, availableAt := step.now, updatedAt := step.now)]))
  {
    assert StaleFor(h.bus.deliveries, 1, 0, step.consumer, step.subjects, step.threshold);
  }

  /** Directly after a claim the delivery is being processed, so the above applies. */
  lemma ClaimedIsNotPending(h: History, step: Step, id: nat)
    requires step.ClaimSome? && id in Select(h.bus.deliveries, 0, step.consumer, step.subjects, step.limit, step.now)
    ensures var t := Apply(h, step); id < |t.bus.deliveries| && t.bus.deliveries[id].status == Processing
  {
    hide Select;
    SelectIsOldestFirst(h.bus.deliveries, 0, step.consumer, step.subjects, step.limit, step.now);
  }

  // --- The scheduling worker's retries --------------------------------------------------

  const MAX_EVENT_ATTEMPTS := 5

  datatype Outcome =
    | Done
    | GaveUp
    | NoCapacity(reassignExhausted: bool)
    | Raised

  /** How the worker marks a delivery it holds, by the attempts it was claimed with. */
  function Verdict(attempts: nat, o: Outcome, retryLimit: nat, delay: nat): (Status, Option<nat>) {
    match o
    case Done => (Completed, None)
    case GaveUp => (Failed, None)
    case NoCapacity(reassign) => if attempts >= retryLimit || reassign then (Failed, None) else (Pending, Some(delay))
    case Raised => (if attempts < MAX_EVENT_ATTEMPTS then Pending else Failed, Some(Min(30 * attempts, 300)))
  }

  /** A handler that raises has its delivery back after 30, 60, 90 and 120 seconds and
      is given up at its fifth attempt; without capacity it is given up at the retry
      limit or with the deployment, and otherwise back after the delay. */
  lemma VerdictIs(attempts: nat, retryLimit: nat, delay: nat)
    ensures Verdict(attempts, Raised, retryLimit, delay).0 == if attempts <= 4 then Pending else Failed
    ensures attempts <= 10 ==> Verdict(attempts, Raised, retryLimit, delay).1 == Some(30 * attempts)
    ensures attempts >= 10 ==> Verdict(attempts, Raised, retryLimit, delay).1 == Some(300)
    ensures Verdict(attempts, NoCapacity(true), retryLimit, delay) == (Failed, None)
    ensures attempts < retryLimit <==> Verdict(attempts, NoCapacity(false), retryLimit, delay) == (Pending, Some(delay))
    ensures attempts >= retryLimit <==> Verdict(attempts, NoCapacity(false), retryLimit, delay) == (Failed, None)
    ensures Verdict(attempts, Done, retryLimit, delay) == (Completed, None)
    ensures Verdict(attempts, GaveUp, retryLimit, delay) == (Failed, None)
  {
  }

  datatype Work =
    | Publishes(subject: string, payload: string, now: int)
    | Claims(consumer: string, subjects: set<string>, limit: nat, now: int)
    | Marks(id: nat, outcome: Outcome, now: int)

  /** The worker marks only what it holds. */
  function BusStep(h: History, w: Work, retryLimit: nat, delay: nat): Option<Step> {
    match w
    case Publishes(subject, payload, now) => Some(Publish(subject, payload, now))
    case Claims(consumer, subjects, limit, now) => Some(ClaimSome(consumer, subjects, limit, now))
    case Marks(id, o, now) =>
      if id < |h.bus.deliveries| && h.bus.deliveries[id].status == Processing
      then var v := Verdict(h.bus.deliveries[id].attempts, o, retryLimit, delay); Some(Mark(id, v.0, v.1, now))
      else None
  }

  function Working(h: History, work: seq<Work>, retryLimit: nat, delay: nat): History {
    if work == [] then h
    else
      var before := Working(h, work[..|work| - 1], retryLimit, delay);
      var step := BusStep(before, work[|work| - 1], retryLimit, delay);
      if step.None? then before else Apply(before, step.value)
  }

  /** A request published at 1, and n rounds, well apart, in which it is claimed, if it can
      be, and its handler raises. */
  function RaisingRounds(n: nat): seq<Work> {
    if n == 0 then [Publishes("deployment.requested", "", 1)]
    else
      RaisingRounds(n - 1) + [Claims("control-plane-worker", {"deployment.requested"}, 1, 1000 * n)] +
        [Marks(0, Raised, 1000 * n)]
  }

  function RaisedRow(n: nat): Delivery {
    Delivery(0, "control-plane-worker", "deployment.requested", if n >= 5 then Failed else Pending, Min(n, 5),
             if n == 0 then 1 else 1000 * Min(n, 5) + 30 * Min(n, 5), if n == 0 then 1 else 1000 * Min(n, 5))
  }

  lemma WorkingSnoc(h: History, work: seq<Work>, w: Work, retryLimit: nat, delay: nat)
    ensures Working(h, work + [w], retryLimit, delay) ==
            var before := Working(h, work, retryLimit, delay);
            var step := BusStep(before, w, retryLimit, delay);
            if step.None? then before else Apply(before, step.value)
  {
    hide BusStep, Apply;
    assert (work + [w])[..|work|] == work;
  }

  /** It is claimed exactly five times, and then has failed for good. */
  lemma {:induction false} RaisingIsClaimedFiveTimes(n: nat, retryLimit: nat, delay: nat)
    ensures var h := Working(EMPTY, RaisingRounds(n), retryLimit, delay);
            && |h.claims| == Min(n, 5) && h.bus.deliveries == [RaisedRow(n)]
            && |h.bus.events| == 1 && h.bus.events[0].status == RaisedRow(n).status
  {
    if n == 0 {
      WorkingSnoc(EMPTY, [], Publishes("deployment.requested", "", 1), retryLimit, delay);
      assert [] + RaisingRounds(0) == RaisingRounds(0);
    } else {
      RaisingIsClaimedFiveTimes(n - 1, retryLimit, delay);
      var work := RaisingRounds(n - 1);
      var claim := Claims("control-plane-worker", {"deployment.requested"}, 1, 1000 * n);
      var mark := Marks(0, Raised, 1000 * n);
      var h := Working(EMPTY, work, retryLimit, delay);
      assert RaisingRounds(n) == work + [claim] + [mark];
      assert BusStep(h, claim, retryLimit, delay) ==
             Some(ClaimSome("control-plane-worker", {"deployment.requested"}, 1, 1000 * n));
      hide *;
      WorkingSnoc(EMPTY, work, claim, retryLimit, delay);
      WorkingSnoc(EMPTY, work + [claim], mark, retryLimit, delay);
      RaisingRound(h, n, retryLimit, delay);
    }
  }

  lemma RaisingRound(h: History, n: nat, retryLimit: nat, delay: nat)
    requires n >= 1 && h.bus.deliveries == [RaisedRow(n - 1)] && |h.bus.events| == 1
    requires h.bus.events[0].status == RaisedRow(n - 1).status && |h.claims| == Min(n - 1, 5)
    ensures var t := Apply(h, ClaimSome("control-plane-worker", {"deployment.requested"}, 1, 1000 * n));
            var step := BusStep(t, Marks(0, Raised, 1000 * n), retryLimit, delay);
            var u := if step.None? then t else Apply(t, step.value);
            && |u.claims| == Min(n, 5) && u.bus.deliveries == [RaisedRow(n)]
            && |u.bus.events| == 1 && u.bus.events[0].status == RaisedRow(n).status
  {
    var claim := ClaimSome("control-plane-worker", {"deployment.requested"}, 1, 1000 * n);
    if n <= 5 {
      ClaimsOne(h, RaisedRow(n - 1), 1, 1000 * n);
    } else {
      assert Select(h.bus.deliveries, 0, "control-plane-worker", {"deployment.requested"}, 1, 1000 * n) == [];
      assert Apply(h, claim) == h;
    }
    hide Select;
  }

  predicate RetriesBounded(s: State, bound: nat) {
    forall i :: 0 <= i < |s.deliveries| ==>
      s.deliveries[i].attempts <= bound && (s.deliveries[i].status == Pending ==> s.deliveries[i].attempts < bound)
  }

  lemma WorkKeepsBound(h: History, w: Work, retryLimit: nat, delay: nat)
    requires RetriesBounded(h.bus, Max(retryLimit, MAX_EVENT_ATTEMPTS))
    ensures var step := BusStep(h, w, retryLimit, delay);
            step.Some? ==> RetriesBounded(Apply(h, step.value).bus, Max(retryLimit, MAX_EVENT_ATTEMPTS))
  {
    hide Select;
    if w.Claims? {
      SelectIsOldestFirst(h.bus.deliveries, 0, w.consumer, w.subjects, w.limit, w.now);
    }
  }

  /** While nothing is requeued as stale, no delivery is claimed more often than the
      larger of the retry limit and five, however its handler behaves. */
  lemma {:induction false} ClaimsAreBounded(work: seq<Work>, retryLimit: nat, delay: nat, id: nat)
    ensures RetriesBounded(Working(EMPTY, work, retryLimit, delay).bus, Max(retryLimit, MAX_EVENT_ATTEMPTS))
    ensures Linked(Working(EMPTY, work, retryLimit, delay).bus)
    ensures var h := Working(EMPTY, work, retryLimit, delay);
            Count(h.claims, id) == if id < |h.bus.deliveries| then h.bus.deliveries[id].attempts else 0
    ensures Count(Working(EMPTY, work, retryLimit, delay).claims, id) <= Max(retryLimit, MAX_EVENT_ATTEMPTS)
  {
    if work != [] {
      var front, w := work[..|work| - 1], work[|work| - 1];
      var h := Working(EMPTY, front, retryLimit, delay);
      ClaimsAreBounded(front, retryLimit, delay, id);
      WorkKeepsBound(h, w, retryLimit, delay);
      var step := BusStep(h, w, retryLimit, delay);
      if step.Some? {
        AttemptsStep(h, step.value, id);
      }
    }
  }
}
