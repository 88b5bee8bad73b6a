/**
  Deployment requests and the worker that places them. Every service call is split
  into its transactions, so whatever it read may be stale when it writes; what is
  proved is that no deployment is left waiting with nothing on the bus to place it.
 */
module Requests {
  import opened Common
  import opened Lifecycle
  import Bus

  /** A deployment.requested delivery, and when its status was last written. */
  datatype Request = Request(deployment: string, status: Bus.Status, updatedAt: int)

  /** Where a call stands between two transactions. A worker that claims several
      deliveries at once is several callers, one per delivery. */
  datatype Call =
    | Idle
    | OwesPublish(deployment: string)               // saved PENDING, about to publish
    | WillRequeue(deployment: string)               // requeue read the row
    | WillWrite(deployment: string, target: DState) // a status report or clean-up read the row
    | WillSave(deployment: string, read: DState)    // a rename or health check read the row, and saves all of it
    | Holding(id: nat)                              // claimed a delivery
    | SawPending(id: nat)                           // read its deployment as PENDING
    | SavedWaiting(id: nat)                         // found no node, saved the row, will ask for a retry
    | GivingUp(id: nat)                             // found no node, saved the row, will report FAILED
    | WillFail(id: nat)                             // the FAILED report read a live row
    | ToComplete(id: nat)                           // nothing left but to mark it completed
    | ToFail(id: nat)                               // nothing left but to mark it failed

  datatype State = State(
    rows: map<string, DState>,
    gone: set<string>,          // deployments whose workload has been deleted
    requests: seq<Request>,
    calls: map<nat, Call>,
    now: int)

  datatype Step =
    | Create(p: nat, deployment: string)
    | PublishRequest(p: nat)
    | Claim(p: nat, id: nat)
    | ReadRow(p: nat)
    | MissWorkload(p: nat)
    | SaveScheduled(p: nat)
    | SaveUnplaced(p: nat, giveUp: bool)
    | MarkRetry(p: nat)
    | ReadForFailure(p: nat)
    | WriteFailed(p: nat)
    | MarkDone(p: nat)
    | BeginWrite(p: nat, deployment: string, target: DState)
    | FinishWrite(p: nat)
    | BeginSave(p: nat, deployment: string)
    | FinishSave(p: nat)
    | BeginRequeue(p: nat, deployment: string)
    | FinishRequeue(p: nat)
    | DeleteWorkload(deployments: set<string>)
    | RequeueStale(id: nat, stale: nat)   // if not written for `stale` seconds
    | Crash(p: nat)
    | Tick(seconds: nat)

  function At(s: State, p: nat): Call { if p in s.calls then s.calls[p] else Idle }

  function Held(c: Call): Option<nat> {
    match c
    case Holding(id) => Some(id)
    case SawPending(id) => Some(id)
    case SavedWaiting(id) => Some(id)
    case GivingUp(id) => Some(id)
    case WillFail(id) => Some(id)
    case ToComplete(id) => Some(id)
    case ToFail(id) => Some(id)
    case _ => None
  }

  /** Will this call still see its delivery's deployment through? */
  predicate Finished(c: Call) { c.ToComplete? || c.ToFail? }

  function Go(s: State, p: nat, c: Call): State { s.(calls := s.calls[p := c]) }

  function SetStatus(s: State, id: nat, status: Bus.Status): State {
    if id < |s.requests|
    then s.(requests := s.requests[id := Request(s.requests[id].deployment, status, s.now)]) else s
  }

  function SetRow(s: State, d: string, state: DState): State { s.(rows := s.rows[d := state]) }

  predicate HeldByNobody(s: State, id: nat) { forall p :: p in s.calls ==> Held(s.calls[p]) != Some(id) }

  predicate Unknown(s: State, d: string) {
    d !in s.rows && d !in s.gone && forall i :: 0 <= i < |s.requests| ==> s.requests[i].deployment != d
  }

  /** The deployment a call's delivery asks for. */
  function Target(s: State, p: nat): string {
    var id := Held(At(s, p));
    if id.Some? && id.value < |s.requests| then s.requests[id.value].deployment else ""
  }

  predicate IsStale(s: State, id: nat, stale: nat) {
    id < |s.requests| && s.requests[id].status == Bus.Processing && s.requests[id].updatedAt <= s.now - stale
  }

  /** One transaction of one call; impossible steps leave the state alone. */
  function Apply(s: State, step: Step): State {
    match step
    case Create(p, d) =>
      if At(s, p).Idle? && Unknown(s, d) then Go(SetRow(s, d, Pending), p, OwesPublish(d)) else s
    case PublishRequest(p) =>
      if At(s, p).OwesPublish?
      then Go(s.(requests := s.requests + [Request(At(s, p).deployment, Bus.Pending, s.now)]), p, Idle) else s
    case Claim(p, id) =>
      if At(s, p).Idle? && id < |s.requests| && s.requests[id].status == Bus.Pending
      then Go(SetStatus(s, id, Bus.Processing), p, Holding(id)) else s
    case ReadRow(p) =>
      if At(s, p).Holding?
      then
        var d := Target(s, p);
        Go(s, p, if d !in s.rows then ToFail(At(s, p).id)
                 else if s.rows[d] != Pending then ToComplete(At(s, p).id) else SawPending(At(s, p).id))
      else s
    case MissWorkload(p) =>
      if At(s, p).SawPending? && Target(s, p) in s.gone then Go(s, p, ToFail(At(s, p).id)) else s
    case SaveScheduled(p) =>
      if At(s, p).SawPending? then Go(SetRow(s, Target(s, p), Scheduled), p, ToComplete(At(s, p).id)) else s
    case SaveUnplaced(p, giveUp) =>
      if At(s, p).SawPending?
      then Go(SetRow(s, Target(s, p), Pending), p,
              if giveUp then GivingUp(At(s, p).id) else SavedWaiting(At(s, p).id))
      else s
    case MarkRetry(p) =>
      if At(s, p).SavedWaiting? then Go(SetStatus(s, At(s, p).id, Bus.Pending), p, Idle) else s
    case ReadForFailure(p) =>
      if At(s, p).GivingUp? && Target(s, p) in s.rows
      then
        var now := s.rows[Target(s, p)];
        if now in {Terminated, Failed} then Go(s, p, ToFail(At(s, p).id))
        else if Transition(now, Failed).Some? then Go(s, p, WillFail(At(s, p).id)) else s
      else s
    case WriteFailed(p) =>
      if At(s, p).WillFail? then Go(SetRow(s, Target(s, p), Failed), p, ToFail(At(s, p).id)) else s
    case MarkDone(p) =>
      if Finished(At(s, p))
      then Go(SetStatus(s, At(s, p).id, if At(s, p).ToComplete? then Bus.Completed else Bus.Failed), p, Idle) else s
    case BeginWrite(p, d, target) =>
      if At(s, p).Idle? && d in s.rows && target != Pending then Go(s, p, WillWrite(d, target)) else s
    case FinishWrite(p) =>
      if At(s, p).WillWrite? then Go(SetRow(s, At(s, p).deployment, At(s, p).target), p, Idle) else s
    case BeginSave(p, d) =>
      if At(s, p).Idle? && d in s.rows then Go(s, p, WillSave(d, s.rows[d])) else s
    case FinishSave(p) =>
      if At(s, p).WillSave? then Go(SetRow(s, At(s, p).deployment, At(s, p).read), p, Idle) else s
    case BeginRequeue(p, d) =>
      if At(s, p).Idle? && d in s.rows then Go(s, p, WillRequeue(d)) else s
    case FinishRequeue(p) =>
      if At(s, p).WillRequeue?
      then Go(SetRow(s, At(s, p).deployment, Pending), p, OwesPublish(At(s, p).deployment)) else s
    case DeleteWorkload(ds) => s.(rows := s.rows - ds, gone := s.gone + ds)
    case RequeueStale(id, stale) => if IsStale(s, id, stale) then SetStatus(s, id, Bus.Pending) else s
    case Crash(p) => Go(s, p, Idle)
    case Tick(seconds) => s.(now := s.now + seconds)
  }

  /** A creation takes an id that nobody has used, and a read a row that exists. */
  lemma StepsAskFor(s: State, p: nat, d: string, target: DState)
    ensures Apply(s, Create(p, d)) != s <==>
            && At(s, p) == Idle && d !in s.rows && d !in s.gone
            && forall r :: r in s.requests ==> r.deployment != d
    ensures d !in s.rows ==>
              Apply(s, BeginWrite(p, d, target)) == Apply(s, BeginSave(p, d)) == Apply(s, BeginRequeue(p, d)) == s
    ensures At(s, p) == Idle ==> Target(s, p) == ""
  {
    hide Transition;
  }

  /** A stale requeue, a delivery that has been processed for as long as that. */
  lemma StaleRequeueIs(s: State, id: nat, stale: nat)
    requires id < |s.requests|
    ensures var r := s.requests[id];
            Apply(s, RequeueStale(id, stale)) ==
            if r.status == Bus.Processing && s.now - r.updatedAt >= stale
            then s.(requests := s.requests[id := Request(r.deployment, Bus.Pending, s.now)]) else s
  {
  }

  function Run(s: State, steps: seq<Step>): State {
    if steps == [] then s else Apply(Run(s, steps[..|steps| - 1]), steps[|steps| - 1])
  }

  const START := State(map[], {}, [], map[], 0)

  // --- The invariant -----------------------------------------------------------------

  /** What delivery id asks for has lost its workload. */
  predicate Moot(s: State, id: nat) { id < |s.requests| && s.requests[id].deployment in s.gone }

  /** A held delivery is being processed, by one call only, unless its workload is gone. */
  ghost predicate Exclusive(s: State) {
    && (forall p :: p in s.calls && Held(s.calls[p]).Some? ==>
          var id := Held(s.calls[p]).value;
          id < |s.requests| && (s.requests[id].status == Bus.Processing || Moot(s, id)))
    && (forall p, q :: p in s.calls && q in s.calls && p != q && Held(s.calls[p]).Some? ==>
          Held(s.calls[p]) != Held(s.calls[q]) || Moot(s, Held(s.calls[p]).value))
    && (forall p :: p in s.calls && s.calls[p].WillWrite? ==> s.calls[p].target != Pending)
  }

  /** Every request is, or is going to be, for a row that exists or has been deleted. */
  ghost predicate Rooted(s: State) {
    && (forall i :: 0 <= i < |s.requests| ==> s.requests[i].deployment in s.rows.Keys + s.gone)
    && (forall p :: p in s.calls && s.calls[p].OwesPublish? ==> s.calls[p].deployment in s.rows.Keys + s.gone)
  }

  /** Delivery i will still bring the worker to look at d. */
  ghost predicate Looking(s: State, d: string, i: int) {
    && 0 <= i < |s.requests| && s.requests[i].deployment == d
    && (s.requests[i].status == Bus.Pending ||
        (s.requests[i].status == Bus.Processing &&
         forall p :: p in s.calls && Held(s.calls[p]) == Some(i) ==> !Finished(s.calls[p])))
  }

  ghost predicate Publishing(s: State, d: string, p: nat) { p in s.calls && s.calls[p] == OwesPublish(d) }

  ghost predicate Covered(s: State, d: string) {
    (exists i :: Looking(s, d, i)) || (exists p :: Publishing(s, d, p))
  }

  predicate Waits(s: State, d: string) { d in s.rows && s.rows[d] == Pending && d !in s.gone }

  ghost predicate Inv(s: State) {
    Exclusive(s) && Rooted(s) && forall d :: Waits(s, d) ==> Covered(s, d)
  }

  // --- What is asked of the callers ---------------------------------------------------

  /** Three steps are not always safe. A stale delivery may be put back unless a call
      still holds it and its workload still exists. A save that read PENDING may be late if the deployment is still
      PENDING, its workload is gone, or a delivery or a publisher still carries it. A
      call may die before publishing if what it owes no longer waits, or a delivery or
      another publisher carries it. */
  ghost predicate Safe(s: State, step: Step) {
    match step
    case RequeueStale(id, stale) => IsStale(s, id, stale) ==> HeldByNobody(s, id) || Moot(s, id)
    case FinishSave(p) =>
      At(s, p).WillSave? && At(s, p).read == Pending ==>
        var d := At(s, p).deployment;
        d in s.gone || (d in s.rows && s.rows[d] == Pending) || Covered(s, d)
    case Crash(p) =>
      At(s, p).OwesPublish? ==>
        var d := At(s, p).deployment;
        !Waits(s, d) || (exists i :: Looking(s, d, i)) || (exists q :: q != p && Publishing(s, d, q))
    case _ => true
  }

  ghost predicate SafeRun(s: State, steps: seq<Step>) {
    forall k :: 0 <= k < |steps| ==> Safe(Run(s, steps[..k]), steps[k])
  }

  /** No call has held its delivery for `stale` seconds. */
  predicate HeldBriefly(s: State, stale: nat) {
    forall p :: p in s.calls && Held(s.calls[p]).Some? && Held(s.calls[p]).value < |s.requests| ==>
      s.requests[Held(s.calls[p]).value].updatedAt > s.now - stale
  }

  /** What a caller can see to: a recovery passes a threshold above the slowest live
      handler; a whole-row save that read PENDING finds the row still PENDING; nobody
      dies between saving PENDING and publishing. */
  predicate Careful(s: State, step: Step) {
    match step
    case RequeueStale(_, stale) => HeldBriefly(s, stale)
    case FinishSave(p) =>
      At(s, p).WillSave? && At(s, p).read == Pending ==>
        At(s, p).deployment in s.rows && s.rows[At(s, p).deployment] == Pending
    case Crash(p) => !At(s, p).OwesPublish?
    case _ => true
  }

  lemma CarefulIsSafe(s: State, step: Step)
    requires Careful(s, step)
    ensures Safe(s, step)
  {
  }

  // --- Steps keep deliveries exclusive -------------------------------------------------

  lemma CallExclusive(s: State, t: State, p: nat)
    requires Exclusive(s)
    requires || t == s
             || (p in t.calls && t.calls == s.calls[p := t.calls[p]] && s.requests <= t.requests && t.gone == s.gone &&
                 (Held(t.calls[p]).None? || Held(t.calls[p]) == Held(At(s, p))) &&
                 (t.calls[p].WillWrite? ==> t.calls[p].target != Pending))
    ensures Exclusive(t)
  {
  }

  lemma MarkExclusive(s: State, p: nat, id: nat, status: Bus.Status)
    requires Exclusive(s) && p in s.calls && Held(s.calls[p]) == Some(id)
    ensures Exclusive(Go(SetStatus(s, id, status), p, Idle))
  {
    var t := Go(SetStatus(s, id, status), p, Idle);
    assert forall q :: q in t.calls && q != p ==> Held(s.calls[q]) != Some(id) || Moot(s, id);
    assert forall i :: Moot(s, i) ==> Moot(t, i);
  }

  lemma ClaimExclusive(s: State, p: nat, id: nat)
    requires Exclusive(s)
    ensures Exclusive(Apply(s, Claim(p, id)))
  {
    var t := Apply(s, Claim(p, id));
    assert forall q :: q in s.calls && id < |s.requests| && s.requests[id].status == Bus.Pending ==>
           Held(s.calls[q]) != Some(id) || Moot(s, id);
    assert forall i :: Moot(s, i) ==> Moot(t, i);
  }

  lemma StaleExclusive(s: State, id: nat, stale: nat)
    requires Exclusive(s) && (IsStale(s, id, stale) ==> HeldByNobody(s, id) || Moot(s, id))
    ensures Exclusive(Apply(s, RequeueStale(id, stale)))
  {
    assert forall i :: Moot(s, i) ==> Moot(Apply(s, RequeueStale(id, stale)), i);
  }

  lemma SameCallsExclusive(s: State, t: State)
    requires Exclusive(s) && t.calls == s.calls && t.requests == s.requests && s.gone <= t.gone
    ensures Exclusive(t)
  {
  }

  lemma StepExclusive(s: State, step: Step)
    requires Exclusive(s) && Safe(s, step)
    ensures Exclusive(Apply(s, step))
  {
    hide Exclusive;
    match step
    case Claim(p, id) => ClaimExclusive(s, p, id);
    case RequeueStale(id, stale) => StaleExclusive(s, id, stale);
    case DeleteWorkload(_) => SameCallsExclusive(s, Apply(s, step));
    case Tick(_) => SameCallsExclusive(s, Apply(s, step));
    case MarkRetry(p) => if At(s, p).SavedWaiting? { MarkExclusive(s, p, At(s, p).id, Bus.Pending); }
    case MarkDone(p) =>
      if Finished(At(s, p)) {
        MarkExclusive(s, p, At(s, p).id, if At(s, p).ToComplete? then Bus.Completed else Bus.Failed);
      }
    case _ =>
      OneCall(s, step);
      hide Apply, Safe;
      CallExclusive(s, Apply(s, step), step.p);
  }

  /** These steps change one call, which holds nothing new, and no delivery's status. */
  lemma OneCall(s: State, step: Step)
    requires !step.Claim? && !step.RequeueStale? && !step.DeleteWorkload? && !step.Tick?
    requires !step.MarkRetry? && !step.MarkDone?
    ensures var t := Apply(s, step);
            || t == s
            || (step.p in t.calls && t.calls == s.calls[step.p := t.calls[step.p]] && s.requests <= t.requests &&
                t.gone == s.gone &&
                (Held(t.calls[step.p]).None? || Held(t.calls[step.p]) == Held(At(s, step.p))) &&
                (t.calls[step.p].WillWrite? ==> t.calls[step.p].target != Pending))
  {
    hide Transition, Unknown;
  }

  // --- Steps keep every waiting deployment covered --------------------------------------

  /** A step that changes one call, and nothing about the row of d, keeps d covered
      unless that call was its cover. */
  lemma CallChangeCovers(s: State, t: State, p: nat, d: string)
    requires Covered(s, d)
    requires t.requests == s.requests && t.calls == s.calls[p := At(t, p)] && p in t.calls
    requires At(s, p) != OwesPublish(d)
    requires Held(At(t, p)).Some? && Finished(At(t, p)) ==>
               Held(At(t, p)).value >= |s.requests| || s.requests[Held(At(t, p)).value].deployment != d ||
               (Held(At(s, p)) == Held(At(t, p)) && Finished(At(s, p)))
    ensures Covered(t, d)
  {
    if i :| Looking(s, d, i) {
      assert Looking(t, d, i);
    } else {
      var q :| Publishing(s, d, q);
      assert Publishing(t, d, q);
    }
  }

  /** Marking a delivery keeps d covered when the delivery is for another deployment,
      when it goes back to pending, or when its call had finished with it. */
  lemma MarkCovers(s: State, p: nat, id: nat, status: Bus.Status, d: string)
    requires Covered(s, d) && id < |s.requests| && p in s.calls && Held(s.calls[p]) == Some(id)
    requires s.requests[id].deployment == d ==>
               s.requests[id].status == Bus.Processing && (status == Bus.Pending || Finished(s.calls[p]))
    ensures Covered(Go(SetStatus(s, id, status), p, Idle), d)
  {
    var t := Go(SetStatus(s, id, status), p, Idle);
    if i :| Looking(s, d, i) {
      assert Looking(t, d, i);
    } else {
      var q :| Publishing(s, d, q);
      assert Publishing(t, d, q);
    }
  }

  lemma ClaimCovers(s: State, p: nat, id: nat, d: string)
    requires Exclusive(s) && Covered(s, d) && d !in s.gone
    ensures Covered(Apply(s, Claim(p, id)), d)
  {
    var t := Apply(s, Claim(p, id));
    if i :| Looking(s, d, i) {
      assert Looking(t, d, i);
    } else {
      var q :| Publishing(s, d, q);
      assert Publishing(t, d, q);
    }
  }

  lemma StaleCovers(s: State, id: nat, stale: nat, d: string)
    requires Covered(s, d)
    ensures Covered(Apply(s, RequeueStale(id, stale)), d)
  {
    var t := Apply(s, RequeueStale(id, stale));
    if i :| Looking(s, d, i) {
      assert Looking(t, d, i);
    } else {
      var q :| Publishing(s, d, q);
      assert Publishing(t, d, q);
    }
  }

  lemma SameBusCovers(s: State, t: State, d: string)
    requires Covered(s, d) && t.requests == s.requests && t.calls == s.calls
    ensures Covered(t, d)
  {
    if i :| Looking(s, d, i) {
      assert Looking(t, d, i);
    } else {
      var q :| Publishing(s, d, q);
      assert Publishing(t, d, q);
    }
  }

  lemma PublishCovers(s: State, p: nat, d: string)
    requires Covered(s, d) && Exclusive(s)
    ensures Covered(Apply(s, PublishRequest(p)), d)
  {
    var t := Apply(s, PublishRequest(p));
    if At(s, p) == OwesPublish(d) {
      assert Looking(t, d, |s.requests|);
    } else if i :| Looking(s, d, i) {
      assert Looking(t, d, i);
    } else {
      var q :| Publishing(s, d, q);
      assert Publishing(t, d, q);
    }
  }

  /** The worker's own save of a row it could not place: its delivery is the cover. */
  lemma UnplacedCovers(s: State, p: nat, giveUp: bool)
    requires Exclusive(s) && At(s, p).SawPending? && Target(s, p) !in s.gone
    ensures Covered(Apply(s, SaveUnplaced(p, giveUp)), Target(s, p))
  {
    var t := Apply(s, SaveUnplaced(p, giveUp));
    assert p in s.calls && Held(s.calls[p]) == Some(At(s, p).id);
    assert Looking(t, Target(s, p), At(s, p).id);
  }

  lemma OwingCovers(s: State, p: nat, d: string)
    requires At(s, p) == OwesPublish(d)
    ensures Covered(s, d)
  {
    assert Publishing(s, d, p);
  }

  lemma ReadingCovers(s: State, p: nat, d: string)
    requires Inv(s) && At(s, p).Holding? && Waits(s, d)
    ensures Covered(Apply(s, ReadRow(p)), d)
  {
    CallChangeCovers(s, Apply(s, ReadRow(p)), p, d);
  }

  predicate ByWorker(step: Step) {
    step.MissWorkload? || step.SaveScheduled? || step.SaveUnplaced? || step.ReadForFailure? || step.WriteFailed?
  }

  lemma WorkerCovers(s: State, step: Step, d: string)
    requires Inv(s) && Waits(Apply(s, step), d) && ByWorker(step)
    ensures Covered(Apply(s, step), d)
  {
    var t := Apply(s, step);
    if t != s {
      if step.SaveUnplaced? && d == Target(s, step.p) {
        UnplacedCovers(s, step.p, step.giveUp);
      } else {
        assert Waits(s, d);
        hide Covered, Transition;
        CallChangeCovers(s, t, step.p, d);
      }
    }
  }

  predicate ByService(step: Step) {
    || step.Create? || step.BeginWrite? || step.FinishWrite? || step.BeginSave? || step.FinishSave?
    || step.BeginRequeue? || step.FinishRequeue? || step.Crash?
  }

  lemma ServiceCovers(s: State, step: Step, d: string)
    requires Inv(s) && Waits(Apply(s, step), d) && ByService(step) && Safe(s, step)
    ensures Covered(Apply(s, step), d)
  {
    var t := Apply(s, step);
    if t != s {
      if (step.Create? && d == step.deployment) || (step.FinishRequeue? && d == At(s, step.p).deployment) {
        OwingCovers(t, step.p, d);
      } else if At(s, step.p) == OwesPublish(d) {
        assert step.Crash? && Waits(s, d);
        if i :| Looking(s, d, i) {
          assert Looking(t, d, i);
        } else {
          var q :| q != step.p && Publishing(s, d, q);
          assert Publishing(t, d, q);
        }
      } else {
        assert Covered(s, d) by { assert Waits(s, d) || step.FinishSave?; }
        hide Covered, Unknown, Safe;
        CallChangeCovers(s, t, step.p, d);
      }
    }
  }

  predicate ByBus(step: Step) {
    || step.PublishRequest? || step.Claim? || step.MarkRetry? || step.MarkDone?
    || step.DeleteWorkload? || step.RequeueStale? || step.Tick?
  }

  lemma BusCovers(s: State, step: Step, d: string)
    requires Inv(s) && Waits(Apply(s, step), d) && ByBus(step)
    ensures Covered(Apply(s, step), d)
  {
    assert Waits(s, d);
    match step
    case PublishRequest(p) => PublishCovers(s, p, d);
    case Claim(p, id) => ClaimCovers(s, p, id, d);
    case MarkRetry(p) => if At(s, p).SavedWaiting? { MarkCovers(s, p, At(s, p).id, Bus.Pending, d); }
    case MarkDone(p) =>
      if Finished(At(s, p)) {
        MarkCovers(s, p, At(s, p).id, if At(s, p).ToComplete? then Bus.Completed else Bus.Failed, d);
      }
    case RequeueStale(id, stale) => StaleCovers(s, id, stale, d);
    case DeleteWorkload(_) => SameBusCovers(s, Apply(s, step), d);
    case Tick(_) => SameBusCovers(s, Apply(s, step), d);
  }

  /** No row is lost that is not gone. */
  lemma RowsStay(s: State, step: Step)
    ensures s.rows.Keys + s.gone <= Apply(s, step).rows.Keys + Apply(s, step).gone
  {
    hide Transition, Unknown, Target;
  }

  /** A new request is one that was owed, and what is newly owed is for a row that exists. */
  lemma AsksStay(s: State, step: Step)
    ensures var t := Apply(s, step);
            && (forall i :: 0 <= i < |t.requests| ==>
                  || (i < |s.requests| && t.requests[i].deployment == s.requests[i].deployment)
                  || (step.PublishRequest? && At(s, step.p) == OwesPublish(t.requests[i].deployment)))
            && (forall p :: p in t.calls && t.calls[p].OwesPublish? ==>
                  (p in s.calls && t.calls[p] == s.calls[p]) || t.calls[p].deployment in t.rows)
  {
    hide Transition, Unknown, Target;
  }

  lemma StepRooted(s: State, step: Step)
    requires Rooted(s)
    ensures Rooted(Apply(s, step))
  {
    RowsStay(s, step);
    AsksStay(s, step);
    hide Apply;
  }

  lemma StepKeeps(s: State, step: Step)
    requires Inv(s) && Safe(s, step)
    ensures Inv(Apply(s, step))
  {
    StepExclusive(s, step);
    StepRooted(s, step);
    forall d | Waits(Apply(s, step), d) ensures Covered(Apply(s, step), d) {
      if step.ReadRow? {
        if At(s, step.p).Holding? { ReadingCovers(s, step.p, d); }
      } else if ByWorker(step) {
        WorkerCovers(s, step, d);
      } else if ByBus(step) {
        BusCovers(s, step, d);
      } else {
        ServiceCovers(s, step, d);
      }
    }
  }

  lemma {:induction false} RunKeeps(s: State, steps: seq<Step>)
    requires Inv(s) && SafeRun(s, steps)
    ensures Inv(Run(s, steps))
  {
    if steps != [] {
      var init := steps[..|steps| - 1];
      assert forall k :: 0 <= k < |init| ==> init[..k] == steps[..k];
      RunKeeps(s, init);
      hide Inv, Apply, Safe;
      StepKeeps(Run(s, init), steps[|steps| - 1]);
    }
  }

  ghost predicate OnTheBus(s: State, d: string) {
    exists i :: 0 <= i < |s.requests| && s.requests[i].deployment == d &&
           s.requests[i].status in {Bus.Pending, Bus.Processing}
  }

  /** No stranded request: in every interleaving of creations, workers, reports,
      whole-row saves, requeues, deletions, crashes and recoveries, as long as the
      three unsafe cases are avoided, a deployment that is PENDING (its workload not
      deleted) has a pending or processing request, or the call that made it PENDING
      is just about to publish one. */
  lemma NoStrandedRequest(steps: seq<Step>, d: string)
    requires SafeRun(START, steps) && Waits(Run(START, steps), d)
    ensures OnTheBus(Run(START, steps), d) || exists p :: Publishing(Run(START, steps), d, p)
  {
    var s := Run(START, steps);
    RunKeeps(START, steps);
    if i :| Looking(s, d, i) {
      assert s.requests[i].status in {Bus.Pending, Bus.Processing};
    }
  }

  /** In particular if the callers are careful. */
  lemma CarefulCallersStrandNothing(steps: seq<Step>, d: string)
    requires forall k :: 0 <= k < |steps| ==> Careful(Run(START, steps[..k]), steps[k])
    requires Waits(Run(START, steps), d)
    ensures OnTheBus(Run(START, steps), d) || exists p :: Publishing(Run(START, steps), d, p)
  {
    forall k | 0 <= k < |steps| ensures Safe(Run(START, steps[..k]), steps[k]) {
      CarefulIsSafe(Run(START, steps[..k]), steps[k]);
    }
    NoStrandedRequest(steps, d);
  }

  // --- One delivery handled without interruption ----------------------------------------

  datatype Limits = Limits(requestRetries: nat, reassignments: nat)

  /** A deployment's row, its delivery, and its lifetime count of retries. */
  datatype Retry = Retry(row: DState, delivery: Bus.Status, count: nat)

  /** No node was found for a delivery claimed for the `attempts`th time: give up on the
      delivery's own attempts, or on the deployment's lifetime count. */
  function Unplaced(r: Retry, attempts: nat, limits: Limits): Retry {
    var count := Max(r.count, attempts);
    if attempts >= limits.requestRetries || count >= limits.reassignments then Retry(Failed, Bus.Failed, count)
    else Retry(Pending, Bus.Pending, count)
  }

  /** A new deployment whose delivery has been claimed n times, as long as that was
      possible, without a node each time. */
  function Unlucky(n: nat, limits: Limits): Retry {
    if n == 0 then Retry(Pending, Bus.Pending, 0)
    else
      var r := Unlucky(n - 1, limits);
      if r.delivery == Bus.Pending then Unplaced(r, n, limits) else r
  }

  /** It is given up at the smaller of the two limits, with row and delivery failed
      together, and not before; a limit of none counts as one. */
  lemma {:induction false} GivenUpAtTheLimit(n: nat, limits: Limits)
    ensures var last := Max(1, Min(limits.requestRetries, limits.reassignments));
            Unlucky(n, limits) ==
            if n < last then Retry(Pending, Bus.Pending, n) else Retry(Failed, Bus.Failed, last)
  {
    if n > 0 {
      GivenUpAtTheLimit(n - 1, limits);
    }
  }

  /** The bus is told the same. */
  lemma UnplacedIsVerdict(r: Retry, attempts: nat, limits: Limits, delay: nat)
    ensures var after := Unplaced(r, attempts, limits);
            && after.delivery ==
                 Bus.Verdict(attempts, Bus.NoCapacity(after.count >= limits.reassignments),
                             limits.requestRetries, delay).0
            && (after.row == Failed <==> after.delivery == Bus.Failed)
  {
  }

  /** What handling delivery id comes to: the row's state afterwards (None: no row)
      and the delivery's status. */
  function Handled(row: Option<DState>, workloadGone: bool, findsNode: bool, exhausted: bool)
    : (Option<DState>, Bus.Status)
  {
    if row.None? then (None, Bus.Failed)
    else if row.value != Pending then (row, Bus.Completed)
    else if workloadGone then (row, Bus.Failed)
    else if findsNode then (Some(Scheduled), Bus.Completed)
    else if exhausted then (Some(Failed), Bus.Failed)
    else (Some(Pending), Bus.Pending)
  }

  function RowOf(rows: map<string, DState>, d: string): Option<DState> { if d in rows then Some(rows[d]) else None }

  class RequestWorker {
    var rows: map<string, DState>
    var gone: set<string>
    var requests: seq<Request>
    var retryCount: map<string, nat>

    constructor ()
      ensures rows == map[] && gone == {} && requests == [] && retryCount == map[]
    {
      rows, gone, requests, retryCount := map[], {}, [], map[];
    }

    /** _process_deployment_request; `findsNode` is what _assign_lease answers. */
    method ProcessDeploymentRequest(id: nat, attempts: nat, findsNode: bool, limits: Limits, now: int)
      returns (placed: bool)
      requires id < |requests|
      modifies this
      ensures gone == old(gone)
      ensures var d := old(requests)[id].deployment;
              var count := if d in old(retryCount) then old(retryCount)[d] else 0;
              !findsNode && RowOf(old(rows), d) == Some(Pending) && d !in gone ==>
                |requests| == |old(requests)| &&
                if attempts < limits.requestRetries && attempts < limits.reassignments && count < limits.reassignments
                then RowOf(rows, d) == Some(Pending) && requests[id].status == Bus.Pending
                else RowOf(rows, d) == Some(Failed) && requests[id].status == Bus.Failed
      ensures var d := old(requests)[id].deployment;
              var count := if d in old(retryCount) then old(retryCount)[d] else 0;
              var exhausted := Unplaced(Retry(Pending, Bus.Processing, count), attempts, limits).row == Failed;
              var (row, status) := Handled(RowOf(old(rows), d), d in gone, findsNode, exhausted);
              RowOf(rows, d) == row && requests == old(requests)[id := Request(d, status, now)] &&
              (forall e :: e != d ==> RowOf(rows, e) == RowOf(old(rows), e)) &&
              (placed <==> row == Some(Scheduled) && status == Bus.Completed && RowOf(old(rows), d) == Some(Pending))
      ensures var d := old(requests)[id].deployment;
              var count := if d in old(retryCount) then old(retryCount)[d] else 0;
              retryCount == if RowOf(old(rows), d) != Some(Pending) || d in gone then old(retryCount)
                            else old(retryCount)[d := Max(count, if findsNode then attempts - 1 else attempts)]
    {
      placed := false;
      var d := requests[id].deployment;
      if d !in rows {
        requests := requests[id := Request(d, Bus.Failed, now)];
        return;
      }
      if rows[d] != Pending {
        requests := requests[id := Request(d, Bus.Completed, now)];
        return;
      }
      if d in gone {
        requests := requests[id := Request(d, Bus.Failed, now)];
        return;
      }
      var count := if d in retryCount then retryCount[d] else 0;
      if !findsNode {
        count := Max(count, attempts);
        retryCount := retryCount[d := count];
        if attempts >= limits.requestRetries || count >= limits.reassignments {
          rows := rows[d := Failed];
          requests := requests[id := Request(d, Bus.Failed, now)];
          return;
        }
        requests := requests[id := Request(d, Bus.Pending, now)];
        return;
      }
      retryCount := retryCount[d := Max(count, Max(0, attempts - 1))];
      rows := rows[d := Scheduled];
      requests := requests[id := Request(d, Bus.Completed, now)];
      placed := true;
    }
  }

  lemma {:induction false} RunConcat(s: State, a: seq<Step>, b: seq<Step>)
    ensures Run(s, a + b) == Run(Run(s, a), b)
  {
    hide Apply;
    if b == [] {
      assert a + b == a;
    } else {
      assert (a + b)[..|a + b| - 1] == a + b[..|b| - 1];
      RunConcat(s, a, b[..|b| - 1]);
    }
  }

  lemma Run2(s: State, a: Step, b: Step)
    ensures Run(s, [a, b]) == Apply(Apply(s, a), b)
  {
    hide Apply;
    assert [a, b][..1] == [a] && [a][..0] == [];
    assert Run(s, [a]) == Apply(s, a);
  }

  lemma Run3(s: State, a: Step, b: Step, c: Step)
    ensures Run(s, [a, b, c]) == Apply(Apply(Apply(s, a), b), c)
  {
    hide Apply;
    assert [a, b, c][..2] == [a, b];
    Run2(s, a, b);
  }

  /** The worker's transactions after a claim, by what it finds. */
  function WorkerSteps(s: State, p: nat, d: string, findsNode: bool, exhausted: bool): seq<Step> {
    if d !in s.rows || s.rows[d] != Pending then [ReadRow(p), MarkDone(p)]
    else if d in s.gone then [ReadRow(p), MissWorkload(p), MarkDone(p)]
    else if findsNode then [ReadRow(p), SaveScheduled(p), MarkDone(p)]
    else if exhausted then [ReadRow(p), SaveUnplaced(p, true), ReadForFailure(p), WriteFailed(p), MarkDone(p)]
    else [ReadRow(p), SaveUnplaced(p, false), MarkRetry(p)]
  }

  /** Delivery `id` for `d` ends with this status, and the row with this state. */
  ghost predicate Ends(s: State, t: State, p: nat, row: Option<DState>, status: Bus.Status) {
    && At(s, p).Holding? && At(t, p).Idle? && RowOf(t.rows, Target(s, p)) == row
    && |t.requests| == |s.requests| && At(s, p).id < |t.requests|
    && t.requests[At(s, p).id] == Request(Target(s, p), status, s.now)
  }

  predicate Claimed(s: State, p: nat) { At(s, p).Holding? && At(s, p).id < |s.requests| }

  lemma FindsNothingToDo(s: State, p: nat)
    requires Claimed(s, p) && RowOf(s.rows, Target(s, p)) != Some(Pending)
    ensures Ends(s, Run(s, [ReadRow(p), MarkDone(p)]), p, RowOf(s.rows, Target(s, p)),
                 if Target(s, p) in s.rows then Bus.Completed else Bus.Failed)
  {
    Run2(s, ReadRow(p), MarkDone(p));
    hide Run;
  }

  lemma FindsNoWorkload(s: State, p: nat)
    requires Claimed(s, p) && RowOf(s.rows, Target(s, p)) == Some(Pending) && Target(s, p) in s.gone
    ensures Ends(s, Run(s, [ReadRow(p), MissWorkload(p), MarkDone(p)]), p, Some(Pending), Bus.Failed)
  {
    Run3(s, ReadRow(p), MissWorkload(p), MarkDone(p));
    hide Run;
  }

  lemma FindsNode(s: State, p: nat)
    requires Claimed(s, p) && RowOf(s.rows, Target(s, p)) == Some(Pending)
    ensures Ends(s, Run(s, [ReadRow(p), SaveScheduled(p), MarkDone(p)]), p, Some(Scheduled), Bus.Completed)
  {
    Run3(s, ReadRow(p), SaveScheduled(p), MarkDone(p));
    hide Run;
  }

  lemma FindsNoNode(s: State, p: nat)
    requires Claimed(s, p) && RowOf(s.rows, Target(s, p)) == Some(Pending)
    ensures Ends(s, Run(s, [ReadRow(p), SaveUnplaced(p, false), MarkRetry(p)]), p, Some(Pending), Bus.Pending)
  {
    Run3(s, ReadRow(p), SaveUnplaced(p, false), MarkRetry(p));
    hide Run;
  }

  lemma ReadsForFailure(s: State, p: nat)
    requires At(s, p).GivingUp? && RowOf(s.rows, Target(s, p)) == Some(Pending)
    ensures Apply(s, ReadForFailure(p)) == Go(s, p, WillFail(At(s, p).id))
  {
  }

  lemma MarksFailed(s: State, p: nat, id: nat)
    requires At(s, p) == ToFail(id)
    ensures Apply(s, MarkDone(p)) == Go(SetStatus(s, id, Bus.Failed), p, Idle)
  {
  }

  lemma FailsTheRow(s: State, p: nat)
    requires At(s, p).GivingUp? && At(s, p).id < |s.requests| && RowOf(s.rows, Target(s, p)) == Some(Pending)
    ensures var id, d := At(s, p).id, Target(s, p);
            Run(s, [ReadForFailure(p), WriteFailed(p), MarkDone(p)]) ==
            Go(SetStatus(Go(SetRow(s, d, Failed), p, ToFail(id)), id, Bus.Failed), p, Idle)
  {
    var id, d := At(s, p).id, Target(s, p);
    Run3(s, ReadForFailure(p), WriteFailed(p), MarkDone(p));
    hide Run, Apply;
    ReadsForFailure(s, p);
    WritesFailed(s, p, id, d);
    MarksFailed(Go(SetRow(s, d, Failed), p, ToFail(id)), p, id);
  }

  lemma WritesFailed(s: State, p: nat, id: nat, d: string)
    requires id < |s.requests| && s.requests[id].deployment == d
    ensures Apply(Go(s, p, WillFail(id)), WriteFailed(p)) == Go(SetRow(s, d, Failed), p, ToFail(id))
  {
    var t := Go(s, p, WillFail(id));
    assert Target(t, p) == d;
    assert t.calls[p := ToFail(id)] == s.calls[p := ToFail(id)];
  }

  lemma GivesUp(s: State, p: nat)
    requires Claimed(s, p) && RowOf(s.rows, Target(s, p)) == Some(Pending)
    ensures Ends(s, Run(s, [ReadRow(p), SaveUnplaced(p, true), ReadForFailure(p), WriteFailed(p), MarkDone(p)]),
                 p, Some(Failed), Bus.Failed)
  {
    var id, d := At(s, p).id, Target(s, p);
    var s1 := Go(s, p, SawPending(id));
    assert Apply(s, ReadRow(p)) == s1;
    var s2 := Go(SetRow(s1, d, Pending), p, GivingUp(id));
    assert Apply(s1, SaveUnplaced(p, true)) == s2;
    hide Apply;
    var steps := [ReadRow(p), SaveUnplaced(p, true), ReadForFailure(p), WriteFailed(p), MarkDone(p)];
    assert steps == [ReadRow(p), SaveUnplaced(p, true)] + [ReadForFailure(p), WriteFailed(p), MarkDone(p)];
    Run2(s, ReadRow(p), SaveUnplaced(p, true));
    RunConcat(s, [ReadRow(p), SaveUnplaced(p, true)], [ReadForFailure(p), WriteFailed(p), MarkDone(p)]);
    hide Run;
    FailsTheRow(s2, p);
  }

  /** The interleaved machine, run without interruption, does to the row and the
      delivery what the handler does. */
  lemma UninterruptedWorkerHandles(s: State, p: nat, findsNode: bool, exhausted: bool)
    requires Claimed(s, p)
    ensures var d := Target(s, p);
            var (row, status) := Handled(RowOf(s.rows, d), d in s.gone, findsNode, exhausted);
            Ends(s, Run(s, WorkerSteps(s, p, d, findsNode, exhausted)), p, row, status)
  {
    hide Ends, Run;
    var d := Target(s, p);
    if d !in s.rows || s.rows[d] != Pending {
      FindsNothingToDo(s, p);
    } else if d in s.gone {
      FindsNoWorkload(s, p);
    } else if findsNode {
      FindsNode(s, p);
    } else if exhausted {
      GivesUp(s, p);
    } else {
      FindsNoNode(s, p);
    }
  }
}
