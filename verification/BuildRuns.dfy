/**
  Whole runs of the builder: how long a published or cancelled build stays so, and
  when a build is left behind.
 */
module BuildRuns {
  import opened Common
  import opened Builder

  predicate IsPublished(s: State, id: string) { id in s.builds && s.builds[id].status == Published }

  predicate IsCancelled(s: State, id: string) { id in s.builds && s.builds[id].status == Cancelled }

  predicate IsSettled(s: State, id: string) { id in s.builds && Settled(s.builds[id]) }

  predicate CancelOn(s: State, c: nat, id: string) { c in s.calls && s.calls[c].WillCancel? && s.calls[c].id == id }

  predicate RetryOn(s: State, c: nat, id: string) { c in s.calls && s.calls[c].WillRetry? && s.calls[c].id == id }

  /** Call c has read the build and not saved it. */
  predicate CallOn(s: State, c: nat, id: string) { CancelOn(s, c, id) || RetryOn(s, c, id) }

  ghost predicate CallPending(s: State, id: string) { exists c :: CallOn(s, c, id) }

  ghost predicate RetryPending(s: State, id: string) { exists c :: RetryOn(s, c, id) }

  lemma RunOne(s: State, step: Step)
    ensures Run(s, [step]) == Apply(s, step)
  {
    hide Apply;
    assert [step][..0] == [];
  }

  lemma {:induction false} RunConcat(s: State, a: seq<Step>, b: seq<Step>)
    ensures Run(s, a + b) == Run(Run(s, a), b)
  {
    hide Apply;
    if b == [] {
      assert a + b == a;
    } else {
      assert (a + b)[..|a + b| - 1] == a + b[..|b| - 1];
      RunConcat(s, a, b[..|b| - 1]);
    }
  }

  // --- How long a build stays published ------------------------------------------------

  /** The only steps that take a build out of Published are the saves of calls that
      read it before. */
  lemma PublishedStaysIff(s: State, step: Step, id: string)
    requires Inv(s) && IsPublished(s, id)
    ensures IsPublished(Apply(s, step), id) <==> !(step.Continue? && CallOn(s, step.c, id))
  {
    hide JobsRight, QueueRight, PublishedRight, Without;
    if step.Proceed? {
      if !s.worker.Idle? { AdvanceShape(s); }
      hide Advance, Sent;
    } else if step.Continue? {
      if step.c in s.calls { ContinueShape(s, step.c); }
      hide ContinueCall;
    }
  }

  lemma NoNewCalls(s: State, step: Step, id: string)
    requires IsSettled(s, id)
    ensures CallPending(Apply(s, step), id) ==> CallPending(s, id)
    ensures RetryPending(Apply(s, step), id) ==> RetryPending(s, id)
  {
    var t := Apply(s, step);
    CallsGrow(s, step, id);
    hide Apply;
    if c :| CallOn(t, c, id) { assert CallOn(s, c, id); }
    if c :| RetryOn(t, c, id) { assert RetryOn(s, c, id); }
  }

  /** A call that was not there before has read an unsettled build. */
  lemma CallsGrow(s: State, step: Step, id: string)
    ensures forall c :: CancelOn(Apply(s, step), c, id) ==> CancelOn(s, c, id) || !IsSettled(s, id)
    ensures forall c :: RetryOn(Apply(s, step), c, id) ==> RetryOn(s, c, id) || !IsSettled(s, id)
  {
    hide Without;
    if step.Proceed? {
      if !s.worker.Idle? { AdvanceShape(s); }
      hide Advance;
    }
  }

  lemma {:induction false} PublishedForGood(s: State, steps: seq<Step>, id: string)
    requires Inv(s) && IsPublished(s, id) && !CallPending(s, id)
    ensures IsPublished(Run(s, steps), id) && !CallPending(Run(s, steps), id)
  {
    if steps != [] {
      var init, step := steps[..|steps| - 1], steps[|steps| - 1];
      RunKeeps(s, init);
      PublishedForGood(s, init, id);
      hide JobsRight, QueueRight, PublishedRight, Apply;
      PublishedStaysIff(Run(s, init), step, id);
      NoNewCalls(Run(s, init), step, id);
    }
  }

  /** A published build stays published, whatever follows, exactly when no cancel or
      retry that read it before has yet to save. */
  lemma PublishedLastsIff(s: State, id: string)
    requires Inv(s) && IsPublished(s, id)
    ensures (forall steps :: IsPublished(Run(s, steps), id)) <==> !CallPending(s, id)
  {
    if c :| CallOn(s, c, id) {
      PublishedStaysIff(s, Continue(c), id);
      RunOne(s, Continue(c));
      assert !IsPublished(Run(s, [Continue(c)]), id);
    } else {
      forall steps ensures IsPublished(Run(s, steps), id) {
        PublishedForGood(s, steps, id);
      }
    }
  }

  // --- How long a build stays cancelled ------------------------------------------------

  /** The only steps that take a build out of Cancelled are the worker saving what it
      read of it before, and the save of a retry that read it before. */
  lemma CancelledStaysIff(s: State, step: Step, id: string)
    requires Inv(s) && IsCancelled(s, id)
    ensures IsCancelled(Apply(s, step), id) <==>
            !(step.Proceed? && Holds(s, id)) && !(step.Continue? && RetryOn(s, step.c, id))
    ensures Holds(Apply(s, step), id) ==> Holds(s, id)
  {
    hide JobsRight, QueueRight, PublishedRight, Without;
    if step.Proceed? {
      if !s.worker.Idle? { AdvanceShape(s); }
      hide Advance, Sent;
    } else if step.Continue? {
      if step.c in s.calls { ContinueShape(s, step.c); }
      hide ContinueCall;
    }
  }

  lemma {:induction false} CancelledForGood(s: State, steps: seq<Step>, id: string)
    requires Inv(s) && IsCancelled(s, id) && !Holds(s, id) && !RetryPending(s, id)
    ensures IsCancelled(Run(s, steps), id) && !Holds(Run(s, steps), id) && !RetryPending(Run(s, steps), id)
  {
    if steps != [] {
      var init, step := steps[..|steps| - 1], steps[|steps| - 1];
      RunKeeps(s, init);
      CancelledForGood(s, init, id);
      hide JobsRight, QueueRight, PublishedRight, Apply;
      CancelledStaysIff(Run(s, init), step, id);
      NoNewCalls(Run(s, init), step, id);
    }
  }

  /** A cancelled build stays cancelled, whatever follows, exactly when neither the
      worker nor a retry has read it before and has yet to save. */
  lemma CancelledLastsIff(s: State, id: string)
    requires Inv(s) && IsCancelled(s, id)
    ensures (forall steps :: IsCancelled(Run(s, steps), id)) <==> !Holds(s, id) && !RetryPending(s, id)
  {
    if Holds(s, id) {
      CancelledStaysIff(s, Proceed, id);
      RunOne(s, Proceed);
      assert !IsCancelled(Run(s, [Proceed]), id);
    } else if c :| RetryOn(s, c, id) {
      CancelledStaysIff(s, Continue(c), id);
      RunOne(s, Continue(c));
      assert !IsCancelled(Run(s, [Continue(c)]), id);
    } else {
      forall steps ensures IsCancelled(Run(s, steps), id) {
        CancelledForGood(s, steps, id);
      }
    }
  }

  /** The same for a cancel about to be saved. */
  lemma CancelLastsIff(s: State, c: nat)
    requires Inv(s) && c in s.calls && s.calls[c].WillCancel?
    ensures var id := s.calls[c].id;
            (forall steps :: IsCancelled(Run(ContinueCall(s, c), steps), id)) <==> !Holds(s, id) && !RetryPending(s, id)
  {
    var id, t := s.calls[c].id, ContinueCall(s, c);
    ContinueKeeps(s, c);
    CancelSaved(s, c);
    assert RetryPending(t, id) <==> RetryPending(s, id) by {
      if x :| RetryOn(s, x, id) { assert RetryOn(t, x, id); }
      if x :| RetryOn(t, x, id) { assert RetryOn(s, x, id); }
    }
    hide Inv, ContinueCall;
    CancelledLastsIff(t, id);
  }

  lemma CancelSaved(s: State, c: nat)
    requires c in s.calls && s.calls[c].WillCancel?
    ensures var id, t := s.calls[c].id, ContinueCall(s, c);
            IsCancelled(t, id) && (Holds(t, id) <==> Holds(s, id)) &&
            t.calls == s.calls[c := WillLook(Attempt(id, s.calls[c].build))]
  {
  }

  // --- No build is left behind ------------------------------------------------------------

  /** The attempt's job has run to its end or was stopped. */
  predicate Ended(s: State, key: Key) { key in s.jobs && !s.jobs[key].At? }

  /** A delivery that will move its job on. */
  predicate Drives(s: State, d: Delivery) { !Ended(s, d.key) && (d.Progress? ==> d.key in s.jobs) }

  predicate DrivenBy(s: State, id: string, i: nat) {
    i < |s.queue| && s.queue[i].key.build == id && Drives(s, s.queue[i])
  }

  /** Call c has saved a retry of the build and has yet to publish its request. */
  predicate AskedBy(s: State, id: string, c: nat) {
    c in s.calls && s.calls[c].WillPublish? && s.calls[c].key.build == id && !Ended(s, s.calls[c].key)
  }

  ghost predicate Driven(s: State, id: string) {
    Holds(s, id) || (exists i: nat :: DrivenBy(s, id, i)) || (exists c :: AskedBy(s, id, c))
  }

  ghost predicate AllDriven(s: State) {
    forall id :: id in s.builds && !Settled(s.builds[id]) ==> Driven(s, id)
  }

  predicate DrivenByOther(s: State, key: Key, i: nat) { DrivenBy(s, key.build, i) && s.queue[i].key != key }

  predicate AskedByOther(s: State, key: Key, c: nat) { AskedBy(s, key.build, c) && s.calls[c].key != key }

  /** The worker has the attempt's build in hand, or another attempt is queued or about to be. */
  ghost predicate DrivenWithout(s: State, key: Key) {
    || Holds(s, key.build)
    || (exists i: nat :: DrivenByOther(s, key, i))
    || (exists c :: AskedByOther(s, key, c))
  }

  /** A cancel stops the job of a build that is no longer cancelled and has nothing but
      that job to carry it on; or a retry saves a settled build, and asks for an
      attempt that has ended. */
  ghost predicate Strands(s: State, step: Step) {
    step.Continue? && step.c in s.calls &&
      match s.calls[step.c]
      case WillStop(key) => !IsSettled(s, key.build) && !DrivenWithout(s, key)
      case WillRetry(id, read) => IsSettled(s, id) && !Driven(s, id) && Ended(s, Attempt(id, Retried(read)))
      case _ => false
  }

  ghost predicate NoStranding(s: State, steps: seq<Step>) {
    forall k :: 0 <= k < |steps| ==> !Strands(Run(s, steps[..k]), steps[k])
  }

  /** A build is settled once one of its jobs is complete, and no other becomes so. */
  ghost predicate OneSuccess(s: State) {
    && (forall k :: Complete(s, k) ==> IsSettled(s, k.build) && !Holds(s, k.build))
    && (forall k, l :: Complete(s, k) && Complete(s, l) && k.build == l.build ==> k == l)
  }

  /** A retry that read its build while it was unsettled saves it when it is settled. */
  predicate Revives(s: State, step: Step) {
    step.Continue? && step.c in s.calls && s.calls[step.c].WillRetry? && IsSettled(s, s.calls[step.c].id)
  }

  predicate NoRevival(s: State, steps: seq<Step>) {
    forall k :: 0 <= k < |steps| ==> !Revives(Run(s, steps[..k]), steps[k])
  }

  lemma StillDriven(s: State, t: State, id: string)
    requires Driven(s, id) && (Holds(s, id) ==> Holds(t, id)) && s.queue <= t.queue
    requires forall k: Key :: k.build == id && k in s.jobs ==> k in t.jobs
    requires forall k: Key :: k.build == id && Ended(t, k) ==> Ended(s, k)
    requires forall c :: AskedBy(s, id, c) ==> AskedBy(t, id, c) || DrivenBy(t, id, |s.queue|)
    ensures Driven(t, id)
  {
    if i: nat :| DrivenBy(s, id, i) {
      assert t.queue[i] == s.queue[i];
      assert DrivenBy(t, id, i);
    }
  }

  lemma StartDrives(s: State, id: string)
    requires Inv(s) && AllDriven(s)
    ensures AllDriven(StartBuild(s, id))
  {
    var t := StartBuild(s, id);
    if id !in s.builds {
      assert forall k :: k in s.jobs && JobRight(s, k) ==> k.build != id;
      hide Inv, JobRight;
      forall x | x in t.builds && !Settled(t.builds[x]) ensures Driven(t, x) {
        if x == id {
          assert DrivenBy(t, id, |s.queue|);
        } else {
          assert forall c :: AskedBy(s, x, c) ==> AskedBy(t, x, c);
          StillDriven(s, t, x);
        }
      }
    }
  }

  lemma ReadDrives(s: State, c: nat, id: string, retry: bool)
    requires AllDriven(s)
    ensures AllDriven(ReadBuild(s, c, id, retry))
  {
    var t := ReadBuild(s, c, id, retry);
    forall x | x in t.builds && !Settled(t.builds[x]) ensures Driven(t, x) {
      assert forall y :: AskedBy(s, x, y) ==> AskedBy(t, x, y);
      StillDriven(s, t, x);
    }
  }

  /** A step of a call on another build, or one that neither stops a job nor
      publishes, takes away nothing that carries a build on. */
  lemma ContinueStillDrives(s: State, c: nat, id: string)
    requires c in s.calls && Driven(s, id) && (s.calls[c].WillStop? ==> s.calls[c].key.build != id)
    ensures Driven(ContinueCall(s, c), id)
  {
    var t := ContinueCall(s, c);
    ContinueShape(s, c);
    assert forall x :: x in s.calls && x != c ==> x in t.calls && t.calls[x] == s.calls[x];
    forall x | AskedBy(s, id, x) ensures AskedBy(t, id, x) || DrivenBy(t, id, |s.queue|) {
      if x == c {
        assert t.queue[|s.queue|] == Request(s.calls[c].key);
      }
    }
    hide ContinueCall;
    StillDriven(s, t, id);
  }

  /** Stopping an attempt's job leaves its build carried on exactly when the worker has
      the build in hand, or another attempt of it is queued or about to be. */
  lemma StopDrivesIff(s: State, c: nat)
    requires c in s.calls && s.calls[c].WillStop?
    ensures Driven(ContinueCall(s, c), s.calls[c].key.build) <==> DrivenWithout(s, s.calls[c].key)
  {
    var t, key := ContinueCall(s, c), s.calls[c].key;
    assert forall k :: k != key ==> (Ended(t, k) <==> Ended(s, k));
    if i: nat :| DrivenByOther(s, key, i) { assert DrivenBy(t, key.build, i); }
    if x :| AskedByOther(s, key, x) { assert AskedBy(t, key.build, x); }
    if i: nat :| DrivenBy(t, key.build, i) { assert DrivenByOther(s, key, i); }
    if x :| AskedBy(t, key.build, x) { assert AskedByOther(s, key, x); }
  }

  /** A retry that saves a settled build has it carried on exactly when the attempt
      it asks for has not ended, or something was left that carries it on. */
  lemma RetryDrivesIff(s: State, c: nat)
    requires c in s.calls && s.calls[c].WillRetry?
    ensures var id, read := s.calls[c].id, s.calls[c].build;
            Driven(ContinueCall(s, c), id) <==> Driven(s, id) || !Ended(s, Attempt(id, Retried(read)))
  {
    var id, t := s.calls[c].id, ContinueCall(s, c);
    if Driven(s, id) {
      ContinueStillDrives(s, c, id);
    } else if !Ended(s, Attempt(id, Retried(s.calls[c].build))) {
      assert AskedBy(t, id, c);
    } else {
      if i: nat :| DrivenBy(t, id, i) { assert DrivenBy(s, id, i); }
      if x :| AskedBy(t, id, x) { assert AskedBy(s, id, x); }
    }
  }

  lemma ContinueDrivesIff(s: State, c: nat)
    requires Inv(s) && AllDriven(s)
    ensures AllDriven(ContinueCall(s, c)) <==> !Strands(s, Continue(c))
  {
    if c in s.calls {
      CallKnown(s, c);
      ContinueShape(s, c);
      var t, call := ContinueCall(s, c), s.calls[c];
      hide Inv, ContinueCall, DrivenWithout;
      var id := if call.WillCancel? || call.WillRetry? then call.id else call.key.build;
      assert id in t.builds;
      forall x | x in t.builds && !Settled(t.builds[x]) && (x != id || !(call.WillStop? || call.WillRetry?))
        ensures Driven(t, x)
      {
        ContinueStillDrives(s, c, x);
      }
      hide Driven;
      if call.WillStop? {
        StopDrivesIff(s, c);
      } else if call.WillRetry? {
        RetryDrivesIff(s, c);
      }
    }
  }

  lemma BeginDrives(s: State, i: nat)
    requires Inv(s) && AllDriven(s) && s.worker.Idle? && i < |s.queue|
    ensures AllDriven(Apply(s, Begin(i)))
  {
    var u, d := s.(queue := Without(s.queue, i)), s.queue[i];
    var t := Take(u, d);
    assert Known(s, d);
    hide Inv, JobRight;
    forall x | x in t.builds && !Settled(t.builds[x]) ensures Driven(t, x) {
      if c :| AskedBy(s, x, c) {
        assert AskedBy(t, x, c);
      } else {
        var j: nat :| DrivenBy(s, x, j);
        BeginMoves(s, i, x, j);
      }
    }
  }

  lemma BeginMoves(s: State, i: nat, x: string, j: nat)
    requires s.worker.Idle? && i < |s.queue| && DrivenBy(s, x, j) && x in s.builds && !Settled(s.builds[x])
    ensures Driven(Apply(s, Begin(i)), x)
  {
    var u, d := s.(queue := Without(s.queue, i)), s.queue[i];
    var t := Take(u, d);
    if j == i {
      if d.Request? && d.key in s.jobs {
        assert DrivenBy(t, x, |u.queue|);
      }
    } else {
      var k := if j < i then j else j - 1;
      assert u.queue[k] == s.queue[j] && t.queue[k] == u.queue[k];
      assert DrivenBy(t, x, k);
    }
  }

  lemma AdvanceDrives(s: State)
    requires AllDriven(s) && !s.worker.Idle?
    ensures AllDriven(Advance(s))
  {
    AdvanceShape(s);
    var t, key := Advance(s), s.worker.key;
    assert t.worker.Idle? ==> Sent(s) != [] && Sent(s)[0] == Progress(key);
    hide Advance, Sent;
    forall x | x in t.builds && !Settled(t.builds[x]) ensures Driven(t, x) {
      if x == key.build {
        if t.worker.Idle? {
          assert DrivenBy(t, x, |s.queue|);
        }
      } else if c :| AskedBy(s, x, c) {
        assert AskedBy(t, x, c);
      } else {
        var i: nat :| DrivenBy(s, x, i);
        assert t.queue[i] == s.queue[i];
        assert DrivenBy(t, x, i);
      }
    }
  }

  /** When every unsettled build is carried on by the worker, by a delivery or by a
      retry about to publish one, a step keeps it so exactly when it does not strand. */
  lemma StepDrivesIff(s: State, step: Step)
    requires Inv(s) && AllDriven(s)
    ensures AllDriven(Apply(s, step)) <==> !Strands(s, step)
  {
    hide AllDriven, ContinueCall;
    match step
    case Start(id) => StartDrives(s, id);
    case ReadCancel(c, id) => ReadDrives(s, c, id, false);
    case ReadRetry(c, id) => ReadDrives(s, c, id, true);
    case Continue(c) => ContinueDrivesIff(s, c);
    case Begin(i) => if s.worker.Idle? && i < |s.queue| { BeginDrives(s, i); }
    case Proceed => if !s.worker.Idle? { AdvanceDrives(s); }
  }

  lemma {:induction false} RunDrives(s: State, steps: seq<Step>)
    requires Inv(s) && AllDriven(s) && NoStranding(s, steps)
    ensures Inv(Run(s, steps)) && AllDriven(Run(s, steps))
  {
    if steps != [] {
      var init := steps[..|steps| - 1];
      assert forall k :: 0 <= k < |init| ==> init[..k] == steps[..k];
      RunDrives(s, init);
      hide Inv, AllDriven, Apply, Strands;
      StepKeeps(Run(s, init), steps[|steps| - 1]);
      StepDrivesIff(Run(s, init), steps[|steps| - 1]);
    }
  }

  predicate NonePublishing(s: State) { forall c :: c in s.calls ==> !s.calls[c].WillPublish? }

  /** When nothing is queued, held or about to be published, no build is unfinished. */
  lemma DrainedIsSettled(steps: seq<Step>, id: string)
    requires NoStranding(EMPTY, steps) && id in Run(EMPTY, steps).builds
    requires var s := Run(EMPTY, steps); s.queue == [] && s.worker.Idle? && NonePublishing(s)
    ensures Settled(Run(EMPTY, steps).builds[id])
  {
    EmptyHolds();
    RunDrives(EMPTY, steps);
    assert AllDriven(Run(EMPTY, steps));
  }

  // --- What a stranded build comes to ------------------------------------------------------

  /** No call saves the build's row. */
  predicate SparesRow(s: State, steps: seq<Step>, id: string) {
    forall k :: 0 <= k < |steps| ==> !(steps[k].Continue? && CallOn(Run(s, steps[..k]), steps[k].c, id))
  }

  predicate Unsettled(s: State, id: string) { id in s.builds && !Settled(s.builds[id]) }

  ghost predicate Stuck(s: State, id: string, b: Build) { id in s.builds && s.builds[id] == b && !Driven(s, id) }

  lemma NoMoreDriven(s: State, t: State, id: string, more: seq<Delivery>)
    requires !Driven(s, id) && !Holds(t, id) && t.queue == s.queue + more
    requires forall i :: 0 <= i < |more| ==> more[i].key.build != id || !Drives(t, more[i])
    requires forall k: Key :: k.build == id && k in t.jobs ==> k in s.jobs
    requires forall k: Key :: k.build == id && Ended(s, k) ==> Ended(t, k)
    requires forall c :: AskedBy(t, id, c) ==> AskedBy(s, id, c)
    ensures !Driven(t, id)
  {
    forall i: nat ensures !DrivenBy(t, id, i) {
      assert !DrivenBy(s, id, i);
      assert |s.queue| <= i < |t.queue| ==> t.queue[i] == more[i - |s.queue|];
    }
  }

  lemma ContinueStuck(s: State, c: nat, id: string)
    requires c in s.calls && !CallOn(s, c, id) && !Driven(s, id)
    ensures !Driven(ContinueCall(s, c), id)
  {
    var t, call := ContinueCall(s, c), s.calls[c];
    ContinueShape(s, c);
    assert forall k :: Ended(s, k) ==> Ended(t, k);
    assert call.WillStop? && call.key.build == id && call.key !in s.jobs ==> Ended(t, call.key);
    assert forall x :: AskedBy(t, id, x) ==> AskedBy(s, id, x);
    if i: nat :| DrivenBy(t, id, i) {
      if i < |s.queue| {
        assert DrivenBy(s, id, i);
      } else {
        assert AskedBy(s, id, c);
      }
    }
  }

  lemma BeginStuck(s: State, i: nat, id: string)
    requires s.worker.Idle? && i < |s.queue| && Unsettled(s, id) && !Driven(s, id)
    ensures !Driven(Apply(s, Begin(i)), id)
  {
    var u, d := s.(queue := Without(s.queue, i)), s.queue[i];
    var t := Take(u, d);
    assert !DrivenBy(s, id, i);
    assert forall x :: AskedBy(u, id, x) ==> AskedBy(s, id, x);
    forall j: nat ensures !DrivenBy(u, id, j) {
      assert !DrivenBy(s, id, if j < i then j else j + 1);
    }
    hide Without;
    assert t.queue == u.queue || t.queue == u.queue + [Progress(d.key)];
    assert forall c :: AskedBy(t, id, c) ==> AskedBy(u, id, c);
    NoMoreDriven(u, t, id, if t.queue == u.queue then [] else [Progress(d.key)]);
  }

  lemma AdvanceStuck(s: State, id: string)
    requires !s.worker.Idle? && Unsettled(s, id) && !Driven(s, id)
    ensures !Driven(Advance(s), id) && id in Advance(s).builds && Advance(s).builds[id] == s.builds[id]
  {
    AdvanceShape(s);
    var t, key := Advance(s), s.worker.key;
    assert forall i :: 0 <= i < |Sent(s)| ==> Sent(s)[i] == Progress(key);
    hide Advance, Sent;
    assert forall c :: AskedBy(t, id, c) ==> AskedBy(s, id, c);
    NoMoreDriven(s, t, id, Sent(s));
  }

  lemma StartStuck(s: State, x: string, id: string)
    requires Unsettled(s, id) && !Driven(s, id)
    ensures Stuck(StartBuild(s, x), id, s.builds[id])
  {
    var t := StartBuild(s, x);
    assert forall c :: AskedBy(t, id, c) ==> AskedBy(s, id, c);
    NoMoreDriven(s, t, id, if x in s.builds then [] else [Request(Key(x, 1))]);
  }

  lemma ReadStuck(s: State, c: nat, x: string, retry: bool, id: string)
    requires Unsettled(s, id) && !Driven(s, id)
    ensures Stuck(ReadBuild(s, c, x, retry), id, s.builds[id])
  {
    var t := ReadBuild(s, c, x, retry);
    assert forall y :: AskedBy(t, id, y) ==> AskedBy(s, id, y);
    NoMoreDriven(s, t, id, []);
  }

  lemma StuckStep(s: State, step: Step, id: string)
    requires Unsettled(s, id) && !Driven(s, id) && !(step.Continue? && CallOn(s, step.c, id))
    ensures Stuck(Apply(s, step), id, s.builds[id])
  {
    hide Driven, StartBuild, ReadBuild, Advance;
    match step
    case Start(x) => StartStuck(s, x, id);
    case ReadCancel(c, x) => ReadStuck(s, c, x, false, id);
    case ReadRetry(c, x) => ReadStuck(s, c, x, true, id);
    case Continue(c) =>
      if c in s.calls {
        ContinueStuck(s, c, id);
      }
    case Begin(i) =>
      if s.worker.Idle? && i < |s.queue| {
        BeginStuck(s, i, id);
      }
    case Proceed =>
      if s.worker.Idle? {
        AdvanceIdle(s);
      } else {
        AdvanceStuck(s, id);
      }
  }

  /** A build that nothing carries on stays as it is, whatever follows, until a call
      saves its row. */
  lemma {:induction false} StuckForGood(s: State, steps: seq<Step>, id: string)
    requires Unsettled(s, id) && !Driven(s, id) && SparesRow(s, steps, id)
    ensures Stuck(Run(s, steps), id, s.builds[id])
  {
    if steps != [] {
      var init := steps[..|steps| - 1];
      assert forall k :: 0 <= k < |init| ==> init[..k] == steps[..k];
      StuckForGood(s, init, id);
      hide Driven, Apply;
      StuckStep(Run(s, init), steps[|steps| - 1], id);
    }
  }

  lemma AdvanceSucceeds(s: State)
    requires Inv(s) && OneSuccess(s) && !s.worker.Idle?
    ensures OneSuccess(Advance(s))
  {
    AdvanceShape(s);
    AdvanceComplete(s);
    hide Advance, Sent, Inv, Complete;
    var t, key := Advance(s), s.worker.key;
    assert Holds(s, key.build);
    forall k | Complete(t, k) ensures IsSettled(t, k.build) && !Holds(t, k.build) {
      if k != key {
        assert IsSettled(s, k.build) && k.build != key.build;
      } else {
        assert Settled(t.builds[key.build]);
        assert t.worker.Idle? by { OnlyFinishSucceeds(s); }
      }
    }
  }

  lemma OnlyFinishSucceeds(s: State)
    requires !s.worker.Idle?
    ensures !Advance(s).worker.Idle? ==>
              s.worker.key.build in Advance(s).builds && Advance(s).builds[s.worker.key.build].status != Published
  {
  }

  /** The jobs that are complete are what they were, and where there is one nothing has
      changed. */
  lemma SameSuccesses(s: State, t: State)
    requires OneSuccess(s)
    requires forall k :: Complete(t, k) ==> Complete(s, k)
    requires forall id :: IsSettled(s, id) && !Holds(s, id) ==> IsSettled(t, id) && !Holds(t, id)
    ensures OneSuccess(t)
  {
    hide Complete;
  }

  lemma ContinueSucceeds(s: State, c: nat)
    requires Inv(s) && OneSuccess(s) && !Revives(s, Continue(c))
    ensures OneSuccess(ContinueCall(s, c))
  {
    if c in s.calls {
      var t := ContinueCall(s, c);
      ContinueShape(s, c);
      CallKnown(s, c);
      hide Inv, OneSuccess, ContinueCall;
      assert forall k :: Complete(t, k) ==> Complete(s, k);
      SameSuccesses(s, t);
    }
  }

  lemma BeginSucceeds(s: State, i: nat)
    requires Inv(s) && OneSuccess(s) && s.worker.Idle? && i < |s.queue|
    ensures OneSuccess(Apply(s, Begin(i)))
  {
    var u := s.(queue := Without(s.queue, i));
    WithoutKeeps(s, i);
    TakeComplete(u, s.queue[i]);
    assert forall k :: Complete(u, k) <==> Complete(s, k);
    hide OneSuccess, Without, Complete, Inv;
    SameSuccesses(s, Apply(s, Begin(i)));
  }

  lemma StepSucceeds(s: State, step: Step)
    requires Inv(s) && OneSuccess(s) && !Revives(s, step)
    ensures OneSuccess(Apply(s, step))
  {
    hide OneSuccess, Inv;
    match step
    case Start(id) => SameSuccesses(s, StartBuild(s, id));
    case ReadCancel(c, id) => SameSuccesses(s, ReadBuild(s, c, id, false));
    case ReadRetry(c, id) => SameSuccesses(s, ReadBuild(s, c, id, true));
    case Continue(c) => ContinueSucceeds(s, c);
    case Begin(i) => if s.worker.Idle? && i < |s.queue| { BeginSucceeds(s, i); }
    case Proceed => if !s.worker.Idle? { AdvanceSucceeds(s); }
  }

  lemma {:induction false} RunIsClean(s: State, steps: seq<Step>)
    requires Inv(s) && OneSuccess(s) && NoRevival(s, steps)
    ensures Inv(Run(s, steps)) && OneSuccess(Run(s, steps))
  {
    if steps != [] {
      var init := steps[..|steps| - 1];
      assert forall k :: 0 <= k < |init| ==> init[..k] == steps[..k];
      RunIsClean(s, init);
      hide Inv, OneSuccess, Apply, Revives;
      StepKeeps(Run(s, init), steps[|steps| - 1]);
      StepSucceeds(Run(s, init), steps[|steps| - 1]);
    }
  }

  /** However deliveries, cancels and retries fall, a job runs its stages in order and
      none of them twice, and a job that succeeded ran them all. */
  lemma StagesRunOnce(steps: seq<Step>, key: Key)
    ensures InOrder(RanBy(Run(EMPTY, steps), key))
    ensures key in Run(EMPTY, steps).jobs && Run(EMPTY, steps).jobs[key].Succeeded? ==>
              RanBy(Run(EMPTY, steps), key) == Order()
  {
    hide Run, Order;
    EmptyHolds();
    RunKeeps(EMPTY, steps);
    StagesInOrder();
    var s := Run(EMPTY, steps);
    if key in s.jobs {
      assert JobRight(s, key);
    }
  }

  /** While no retry revives a settled build, a published one was published by one
      attempt, which ran every stage; no other got as far as publishing. */
  lemma PublishedByOneAttempt(steps: seq<Step>, id: string) returns (a: nat)
    requires NoRevival(EMPTY, steps) && IsPublished(Run(EMPTY, steps), id)
    ensures RanBy(Run(EMPTY, steps), Key(id, a)) == Order()
    ensures forall b: nat :: b != a ==> Publishing !in RanBy(Run(EMPTY, steps), Key(id, b))
  {
    EmptyHolds();
    RunIsClean(EMPTY, steps);
    hide Run, NoRevival, InOrder, Order, Before, QueueRight;
    var s := Run(EMPTY, steps);
    a :| Complete(s, Key(id, a));
    forall b: nat | b != a ensures Publishing !in RanBy(s, Key(id, b)) {
      assert !Complete(s, Key(id, b)) && !Holds(s, id);
      if Key(id, b) in s.jobs {
        assert JobRight(s, Key(id, b)) && !OnStage(s, Key(id, b));
        NotPublishing(s, Key(id, b));
      }
    }
  }

  lemma NotPublishing(s: State, key: Key)
    requires key in s.jobs && JobRight(s, key) && !Complete(s, key) && !OnStage(s, key)
    ensures Publishing !in RanBy(s, key)
  {
  }

  // --- An attempt run by itself ---------------------------------------------------------

  lemma Run2(s: State, a: Step, b: Step)
    ensures Run(s, [a, b]) == Apply(Apply(s, a), b)
  {
    hide Apply;
    assert [a, b][..1] == [a];
    RunOne(s, a);
  }

  lemma Run3(s: State, a: Step, b: Step, c: Step)
    ensures Run(s, [a, b, c]) == Apply(Apply(Apply(s, a), b), c)
  {
    hide Apply;
    assert [a, b, c][..2] == [a, b];
    Run2(s, a, b);
  }

  /** The worker is idle and can take delivery n of an unsettled build. */
  predicate Takes(s: State, n: nat, d: Delivery) {
    && s.worker.Idle? && n < |s.queue| && s.queue[n] == d
    && d.key.build in s.builds && !Settled(s.builds[d.key.build])
  }

  function StageSteps(n: nat): seq<Step> { [Begin(n), Proceed, Proceed] }

  function FinalBuild(b: Build, key: Key): Build { Build(Published, Max(b.retryCount, Max(0, key.attempt - 1))) }

  /** Tables and queue after a step of the worker; calls are as before. */
  predicate Leaves(s: State, t: State, key: Key, b: Build, job: Job, queue: seq<Delivery>) {
    && t.worker.Idle? && t.calls == s.calls && t.queue == queue
    && t.jobs == s.jobs[key := job] && t.builds == s.builds[key.build := b]
  }

  lemma StageBegun(s: State, n: nat, key: Key, st: Stage)
    requires Takes(s, n, Progress(key)) && key in s.jobs && s.jobs[key] == At(st)
    ensures var t, b := Run(s, [Begin(n), Proceed]), s.builds[key.build].(status := InStage(st));
            && t.worker == Busy(key, b, st) && t.calls == s.calls && t.queue == Without(s.queue, n)
            && t.jobs == s.jobs && t.builds == s.builds[key.build := b]
  {
    Run2(s, Begin(n), Proceed);
    hide Run, Without;
    var t := s.(queue := Without(s.queue, n), worker := Starting(key, s.builds[key.build], st));
    assert Apply(s, Begin(n)) == t;
    assert s.jobs[key := At(st)] == s.jobs;
  }

  lemma StageRuns(s: State, n: nat, key: Key, st: Stage)
    requires Takes(s, n, Progress(key)) && key in s.jobs && s.jobs[key] == At(st)
    ensures var t, b, rest := Run(s, StageSteps(n)), s.builds[key.build], Without(s.queue, n);
            if Next(st).Some?
            then Leaves(s, t, key, b.(status := InStage(Next(st).value)), At(Next(st).value),
                        rest + [Progress(key), Progress(key)])
            else Leaves(s, t, key, FinalBuild(b, key), Succeeded, rest + [Progress(key)])
  {
    StageBegun(s, n, key, st);
    var begun := Run(s, [Begin(n), Proceed]);
    assert StageSteps(n) == [Begin(n), Proceed] + [Proceed];
    RunConcat(s, [Begin(n), Proceed], [Proceed]);
    RunOne(begun, Proceed);
    hide Run, Without;
    assert begun.builds[key.build := FinalBuild(s.builds[key.build], key)]
        == s.builds[key.build := FinalBuild(s.builds[key.build], key)];
  }

  function Copies(d: Delivery, n: nat): (q: seq<Delivery>)
    ensures |q| == n && forall i :: 0 <= i < n ==> q[i] == d
  {
    if n == 0 then [] else Copies(d, n - 1) + [d]
  }

  lemma TakeOneCopy(rest: seq<Delivery>, d: Delivery, n: nat)
    requires n >= 1
    ensures Without(rest + Copies(d, n), |rest|) == rest + Copies(d, n - 1)
    ensures rest + Copies(d, n - 1) + [d] == rest + Copies(d, n)
    ensures rest + Copies(d, n - 1) + [d, d] == rest + Copies(d, n + 1)
  {
  }

  /** The same on the way from a state s0, where the queue ends in n progress
      deliveries of the job. */
  lemma StageAlong(s0: State, s: State, rest: seq<Delivery>, n: nat, key: Key, b: Build, st: Stage)
    requires n >= 1 && !Settled(b) && Leaves(s0, s, key, b, At(st), rest + Copies(Progress(key), n))
    ensures var t := Run(s, StageSteps(|rest|));
            if Next(st).Some?
            then Leaves(s0, t, key, b.(status := InStage(Next(st).value)), At(Next(st).value),
                        rest + Copies(Progress(key), n + 1))
            else Leaves(s0, t, key, FinalBuild(b, key), Succeeded, rest + Copies(Progress(key), n))
  {
    TakeOneCopy(rest, Progress(key), n);
    StageRuns(s, |rest|, key, st);
    hide Run, Without, StageSteps, Copies, FinalBuild;
  }

  lemma JobPrepared(s: State, i: nat, key: Key)
    requires Takes(s, i, Request(key)) && key !in s.jobs
    ensures var t := Run(s, [Begin(i), Proceed]);
            Leaves(s, t, key, s.builds[key.build].(status := InStage(Staging)), At(Staging),
                   Without(s.queue, i) + [Progress(key)])
  {
    Run2(s, Begin(i), Proceed);
    hide Run, Without;
  }

  function AttemptSteps(i: nat, n: nat): seq<Step> {
    [Begin(i), Proceed] + StageSteps(n) + StageSteps(n) + StageSteps(n)
  }

  /** A request for a new attempt, run with nobody in between, publishes its build. */
  lemma AttemptPublishes(s: State, i: nat, key: Key)
    requires Takes(s, i, Request(key)) && key !in s.jobs
    requires i < |s.queue| && key.build in s.builds
    ensures Leaves(s, Run(s, AttemptSteps(i, |s.queue| - 1)), key, FinalBuild(s.builds[key.build], key), Succeeded,
                   Without(s.queue, i) + Copies(Progress(key), 3))
  {
    hide *;
    var rest, b := Without(s.queue, i), s.builds[key.build];
    WithoutOne(s.queue, i);
    JobPrepared(s, i, key);
    OneCopy(Progress(key));
    StagesFollow(s, Run(s, [Begin(i), Proceed]), rest, key, b.retryCount);
    AttemptRunIs(s, i, |rest|);
    FinalIs(b, key);
  }

  lemma WithoutOne(q: seq<Delivery>, i: nat)
    requires i < |q|
    ensures |Without(q, i)| == |q| - 1
  {
  }

  lemma OneCopy(d: Delivery)
    ensures Copies(d, 1) == [d]
  {
  }

  lemma FinalIs(b: Build, key: Key)
    ensures forall st :: FinalBuild(Build(st, b.retryCount), key) == FinalBuild(b, key)
  {
  }

  lemma StagesFollow(s: State, s1: State, rest: seq<Delivery>, key: Key, retries: nat)
    requires Leaves(s, s1, key, Build(InStage(Staging), retries), At(Staging), rest + Copies(Progress(key), 1))
    ensures var n := |rest|;
            Leaves(s, Run(Run(Run(s1, StageSteps(n)), StageSteps(n)), StageSteps(n)), key,
                   FinalBuild(Build(InStage(Staging), retries), key), Succeeded, rest + Copies(Progress(key), 3))
  {
    hide *;
    NextStages();
    StageAlong(s, s1, rest, 1, key, Build(InStage(Staging), retries), Staging);
    var s2 := Run(s1, StageSteps(|rest|));
    StageAlong(s, s2, rest, 2, key, Build(InStage(Building), retries), Building);
    var s3 := Run(s2, StageSteps(|rest|));
    StageAlong(s, s3, rest, 3, key, Build(InStage(Publishing), retries), Publishing);
    FinalIs(Build(InStage(Staging), retries), key);
  }

  lemma NextStages()
    ensures Next(Staging) == Some(Building) && Next(Building) == Some(Publishing) && Next(Publishing) == None
    ensures forall st, n :: !Settled(Build(InStage(st), n))
  {
  }

  lemma AttemptRunIs(s: State, i: nat, n: nat)
    ensures Run(s, AttemptSteps(i, n)) ==
            Run(Run(Run(Run(s, [Begin(i), Proceed]), StageSteps(n)), StageSteps(n)), StageSteps(n))
  {
    hide StageSteps, Run;
    RunConcat(s, [Begin(i), Proceed], StageSteps(n));
    RunConcat(s, [Begin(i), Proceed] + StageSteps(n), StageSteps(n));
    RunConcat(s, [Begin(i), Proceed] + StageSteps(n) + StageSteps(n), StageSteps(n));
  }

  // --- What is carried on can be finished ----------------------------------------------------

  predicate WorkerOnly(steps: seq<Step>) {
    forall i :: 0 <= i < |steps| ==> steps[i].Begin? || steps[i].Proceed?
  }

  /** From a progress delivery of an unfinished job. */
  lemma JobFinishes(s: State, n: nat, key: Key) returns (steps: seq<Step>)
    requires Takes(s, n, Progress(key)) && key in s.jobs && s.jobs[key].At?
    ensures WorkerOnly(steps) && IsPublished(Run(s, steps), key.build)
    decreases 3 - Index(s.jobs[key].stage)
  {
    var st := s.jobs[key].stage;
    steps := StageSteps(n);
    StageRuns(s, n, key, st);
    var t, rest := Run(s, steps), Without(s.queue, n);
    hide Run, Without;
    if Next(st).Some? {
      var more := JobFinishes(t, |rest|, key);
      RunConcat(s, steps, more);
      steps := steps + more;
    }
  }

  lemma DeliveryFinishes(s: State, id: string, i: nat) returns (steps: seq<Step>)
    requires s.worker.Idle? && Unsettled(s, id) && DrivenBy(s, id, i)
    ensures WorkerOnly(steps) && IsPublished(Run(s, steps), id)
  {
    var key := s.queue[i].key;
    if s.queue[i].Progress? {
      steps := JobFinishes(s, i, key);
    } else {
      var first := if key in s.jobs then [Begin(i)] else [Begin(i), Proceed];
      if key in s.jobs {
        RunOne(s, Begin(i));
      } else {
        JobPrepared(s, i, key);
      }
      var t := Run(s, first);
      hide Run, Without;
      steps := JobFinishes(t, |t.queue| - 1, key);
      RunConcat(s, first, steps);
      steps := first + steps;
    }
  }

  /** Whatever the worker has in hand, it puts down in at most two steps, and takes
      nothing away from other builds. */
  lemma WorkerPutsDown(s: State, id: string) returns (steps: seq<Step>)
    requires WorkerRight(s) && Unsettled(s, id)
    requires Holds(s, id) || exists i: nat :: DrivenBy(s, id, i)
    ensures WorkerOnly(steps)
    ensures var t := Run(s, steps);
            t.worker.Idle? && (IsPublished(t, id) || (Unsettled(t, id) && exists i: nat :: DrivenBy(t, id, i)))
    decreases if s.worker.Idle? then 0 else if s.worker.Busy? then 1 else 2
  {
    if s.worker.Idle? {
      return [];
    }
    AdvanceShape(s);
    RunOne(s, Proceed);
    var t := Advance(s);
    assert t.worker.Busy? ==> !s.worker.Busy?;
    assert t.worker.Idle? ==> Sent(s) != [] && Sent(s)[0] == Progress(s.worker.key);
    hide Run, Advance, Sent;
    if s.worker.key.build == id {
      assert t.worker.Idle? ==> DrivenBy(t, id, |s.queue|) || IsPublished(t, id);
    } else {
      var i: nat :| DrivenBy(s, id, i);
      assert t.queue[i] == s.queue[i] && DrivenBy(t, id, i);
    }
    if IsPublished(t, id) {
      return [Proceed];
    }
    steps := WorkerPutsDown(t, id);
    RunConcat(s, [Proceed], steps);
    steps := [Proceed] + steps;
  }

  lemma QueuedFinishes(s: State, id: string) returns (steps: seq<Step>)
    requires Inv(s) && Unsettled(s, id) && (Holds(s, id) || exists i: nat :: DrivenBy(s, id, i))
    ensures WorkerOnly(steps) && IsPublished(Run(s, steps), id)
  {
    hide JobsRight, QueueRight, Run, DrivenBy;
    steps := WorkerPutsDown(s, id);
    var t := Run(s, steps);
    if !IsPublished(t, id) {
      var i: nat :| DrivenBy(t, id, i);
      var more := DeliveryFinishes(t, id, i);
      RunConcat(s, steps, more);
      steps := steps + more;
    }
  }

  /** A retry that has saved publishes its request, and the worker does the rest. */
  lemma AskedFinishes(s: State, id: string, c: nat) returns (steps: seq<Step>)
    requires Inv(s) && Unsettled(s, id) && AskedBy(s, id, c)
    ensures SparesRow(s, steps, id) && IsPublished(Run(s, steps), id)
  {
    var t := ContinueCall(s, c);
    assert DrivenBy(t, id, |s.queue|) && Unsettled(t, id);
    ContinueKeeps(s, c);
    RunOne(s, Continue(c));
    hide Inv, ContinueCall;
    var more := QueuedFinishes(t, id);
    steps := [Continue(c)] + more;
    RunConcat(s, [Continue(c)], more);
    assert steps[..0] == [];
  }

  /** An unsettled build is carried on exactly when it can still be settled without a
      further save of its row by a cancel or a retry. */
  lemma DrivenIffFinishes(s: State, id: string)
    requires Inv(s) && Unsettled(s, id)
    ensures Driven(s, id) <==> exists steps :: SparesRow(s, steps, id) && IsSettled(Run(s, steps), id)
  {
    hide Inv, Run;
    if c :| AskedBy(s, id, c) {
      var steps := AskedFinishes(s, id, c);
    } else if Driven(s, id) {
      var steps := QueuedFinishes(s, id);
      assert SparesRow(s, steps, id);
    } else {
      forall steps | SparesRow(s, steps, id) ensures !IsSettled(Run(s, steps), id) {
        StuckForGood(s, steps, id);
      }
    }
  }

  /** Nothing that can still happen settles the build, short of a call that saves its row. */
  ghost predicate Left(s: State, id: string) {
    Unsettled(s, id) && forall steps :: SparesRow(s, steps, id) ==> !IsSettled(Run(s, steps), id)
  }

  ghost predicate NoneLeft(s: State) { forall id :: !Left(s, id) }

  lemma NoneLeftIff(s: State)
    requires Inv(s)
    ensures NoneLeft(s) <==> AllDriven(s)
  {
    forall id ensures Left(s, id) <==> Unsettled(s, id) && !Driven(s, id) {
      if Unsettled(s, id) {
        DrivenIffFinishes(s, id);
      }
    }
  }

  /** Exactly the stranding steps leave a build behind. */
  lemma StepLeavesIff(s: State, step: Step)
    requires Inv(s) && NoneLeft(s)
    ensures NoneLeft(Apply(s, step)) <==> !Strands(s, step)
  {
    hide Inv, Apply, Strands, NoneLeft, AllDriven;
    StepKeeps(s, step);
    NoneLeftIff(s);
    NoneLeftIff(Apply(s, step));
    StepDrivesIff(s, step);
  }
}
