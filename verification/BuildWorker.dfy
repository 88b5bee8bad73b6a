/**
  The builder's worker as it works off its queue: one call of the loop, what it
  publishes, and how many deliveries a build takes.
 */
module BuildWorker {
  import opened Common
  import opened Builder
  import opened BuildRuns

  // --- A delivery without interruption -----------------------------------------------

  function Handle(s: State, d: Delivery): State { Advance(Advance(Take(s, d))) }

  /** The build this delivery published, if it published one. */
  function Output(s: State, d: Delivery): seq<string> {
    if IsPublished(Handle(s, d), d.key.build) && !IsPublished(s, d.key.build) then [d.key.build] else []
  }

  /** Work off at most `n` deliveries, oldest first. */
  function Drain(s: State, n: nat): State
    decreases n
  {
    if n == 0 || s.queue == [] then s
    else Drain(Handle(s.(queue := s.queue[1..]), s.queue[0]), n - 1)
  }

  function Outputs(s: State, n: nat): seq<string>
    decreases n
  {
    if n == 0 || s.queue == [] then []
    else
      var u := s.(queue := s.queue[1..]);
      Output(u, s.queue[0]) + Outputs(Handle(u, s.queue[0]), n - 1)
  }

  lemma TakeAppends(s: State, d: Delivery, front: seq<Delivery>)
    ensures Take(s.(queue := front + s.queue), d) == Take(s, d).(queue := front + Take(s, d).queue)
  {
    assert front + s.queue + [Progress(d.key)] == front + (s.queue + [Progress(d.key)]);
  }

  lemma AdvanceAppends(s: State, front: seq<Delivery>)
    ensures Advance(s.(queue := front + s.queue)) == Advance(s).(queue := front + Advance(s).queue)
  {
    if !s.worker.Idle? {
      var p := Progress(s.worker.key);
      assert front + s.queue + [p] == front + (s.queue + [p]);
      assert front + s.queue + [p, p] == front + (s.queue + [p, p]);
    }
  }

  lemma HandleEnds(s: State, d: Delivery)
    requires s.worker.Idle?
    ensures Handle(s, d).worker.Idle? && Handle(s, d).calls == s.calls
  {
  }

  /** Handling adds to the end of the queue and does not look at the rest of it. */
  lemma HandleAppends(s: State, d: Delivery, front: seq<Delivery>)
    ensures Handle(s.(queue := front + s.queue), d) == Handle(s, d).(queue := front + Handle(s, d).queue)
    ensures Output(s.(queue := front + s.queue), d) == Output(s, d)
  {
    TakeAppends(s, d, front);
    AdvanceAppends(Take(s, d), front);
    AdvanceAppends(Advance(Take(s, d)), front);
    hide Take, Advance;
  }

  lemma DrainOne(s: State, d: Delivery, rest: seq<Delivery>, n: nat)
    requires n > 0
    ensures var t := Handle(s, d);
            && Drain(s.(queue := [d] + rest + s.queue), n) == Drain(t.(queue := rest + t.queue), n - 1)
            && Outputs(s.(queue := [d] + rest + s.queue), n) ==
               Output(s, d) + Outputs(t.(queue := rest + t.queue), n - 1)
  {
    hide Handle, Output;
    var u := s.(queue := [d] + rest + s.queue);
    assert u.queue[1..] == rest + s.queue && u.queue[0] == d;
    assert u.(queue := u.queue[1..]) == s.(queue := rest + s.queue);
    HandleAppends(s, d, rest);
  }

  // --- Calls without interruption -----------------------------------------------------------

  lemma CancelAtOnce(s: State, id: string)
    requires s.calls == map[] && Unsettled(s, id)
    ensures var key := Attempt(id, s.builds[id]);
            ContinueCall(ContinueCall(ContinueCall(ReadBuild(s, 0, id, false), 0), 0), 0) ==
            s.(builds := s.builds[id := s.builds[id].(status := Cancelled)],
               jobs := if key in s.jobs && s.jobs[key].At? then s.jobs[key := Stopped] else s.jobs)
  {
    var key := Attempt(id, s.builds[id]);
    var t := s.(builds := s.builds[id := s.builds[id].(status := Cancelled)], calls := map[0 := WillLook(key)]);
    assert ContinueCall(ReadBuild(s, 0, id, false), 0) == t;
    assert t.calls - {0} == map[];
    assert map[0 := WillStop(key)] - {0} == map[];
    hide ReadBuild;
    if key in s.jobs && s.jobs[key].At? {
      assert ContinueCall(t, 0) == t.(calls := map[0 := WillStop(key)]);
    }
  }

  lemma RetryAtOnce(s: State, id: string)
    requires s.calls == map[] && Unsettled(s, id)
    ensures var b := Retried(s.builds[id]);
            ContinueCall(ContinueCall(ReadBuild(s, 0, id, true), 0), 0) ==
            s.(builds := s.builds[id := b], queue := s.queue + [Request(Attempt(id, b))])
  {
    var b := Retried(s.builds[id]);
    var t := s.(builds := s.builds[id := b], calls := map[0 := WillPublish(Attempt(id, b))]);
    assert ContinueCall(ReadBuild(s, 0, id, true), 0) == t;
    assert t.calls - {0} == map[];
  }

  // --- The loop ---------------------------------------------------------------------------

  class BuildService {
    var builds: map<string, Build>
    var jobs: map<Key, Job>
    var queue: seq<Delivery>
    ghost var ran: map<Key, seq<Stage>>

    ghost function View(): (s: State)
      reads this
    {
      State(builds, jobs, queue, Idle, map[], ran)
    }

    constructor ()
      ensures View() == EMPTY
    {
      builds, jobs, queue, ran := map[], map[], [], map[];
    }

    /** With nobody in between the call's steps. */
    method CancelBuild(id: string)
      modifies this
      ensures View() == ContinueCall(ContinueCall(ContinueCall(ReadBuild(old(View()), 0, id, false), 0), 0), 0)
      ensures id in old(builds) ==> id in builds && Settled(builds[id])
    {
      ghost var was := View();
      if id !in builds || Settled(builds[id]) {
        return;
      }
      builds := builds[id := builds[id].(status := Cancelled)];
      var key := Attempt(id, builds[id]);
      if key in jobs && jobs[key].At? {
        jobs := jobs[key := Stopped];
      }
      CancelAtOnce(was, id);
    }

    method RetryBuild(id: string)
      modifies this
      ensures View() == ContinueCall(ContinueCall(ReadBuild(old(View()), 0, id, true), 0), 0)
      ensures IsSettled(old(View()), id) ==> View() == old(View())
    {
      ghost var was := View();
      if id !in builds || Settled(builds[id]) {
        return;
      }
      builds := builds[id := Retried(builds[id])];
      queue := queue + [Request(Attempt(id, builds[id]))];
      RetryAtOnce(was, id);
    }

    method InitializeOrResumeJob(key: Key)
      requires key.build in builds && !Settled(builds[key.build])
      modifies this
      ensures View() == Advance(Take(old(View()), Request(key)))
    {
      if key !in jobs {
        builds := builds[key.build := builds[key.build].(status := InStage(Staging))];
        jobs := jobs[key := At(Staging)];
      }
      queue := queue + [Progress(key)];
    }

    /** Runs the stage the job stands at; says whether that published the build. */
    method AdvanceJob(key: Key) returns (published: bool)
      requires key.build in builds && !Settled(builds[key.build])
      modifies this
      ensures View() == Handle(old(View()), Progress(key))
      ensures published == IsPublished(View(), key.build)
    {
      if key !in jobs || !jobs[key].At? {
        return false;
      }
      var stage := jobs[key].stage;
      var build := builds[key.build].(status := InStage(stage));
      jobs := jobs[key := At(stage)];
      builds := builds[key.build := build];
      ran := ran[key := RanBy(View(), key) + [stage]];
      published := ApplyStageResult(key, build, stage);
    }

    /** Takes over the outcome of a stage. */
    method ApplyStageResult(key: Key, build: Build, stage: Stage) returns (published: bool)
      modifies this
      ensures View() == FinishStage(old(View()), key, build, stage)
      ensures published == IsPublished(View(), key.build)
    {
      queue := queue + [Progress(key)];
      var next := Next(stage);
      if next.Some? {
        jobs := jobs[key := At(next.value)];
        builds := builds[key.build := build.(status := InStage(next.value))];
        queue := queue + [Progress(key)];
        assert queue == old(queue) + [Progress(key), Progress(key)];
        return false;
      }
      builds := builds[key.build := Build(Published, Max(build.retryCount, Max(0, key.attempt - 1)))];
      jobs := jobs[key := Succeeded];
      published := true;
    }

    method HandleEvent(d: Delivery) returns (published: bool)
      modifies this
      ensures View() == Handle(old(View()), d)
      ensures Output(old(View()), d) == if published then [d.key.build] else []
    {
      var id := d.key.build;
      if id !in builds || Settled(builds[id]) {
        return false;
      }
      if d.Request? {
        InitializeOrResumeJob(d.key);
        return false;
      }
      published := AdvanceJob(d.key);
    }

    /** Claims what is pending, up to the limit, until nothing is left to claim:
        the same as working off single deliveries, oldest first. */
    method ProcessPendingEvents(limit: int) returns (processed: seq<string>)
      modifies this
      ensures View() == Drain(old(View()), Max(limit, 0))
      ensures processed == Outputs(old(View()), Max(limit, 0))
    {
      hide Handle, Output, Drain, Outputs;
      processed := [];
      var remaining := Max(limit, 0);
      while remaining > 0
        invariant remaining >= 0
        invariant Drain(View(), remaining) == Drain(old(View()), Max(limit, 0))
        invariant processed + Outputs(View(), remaining) == Outputs(old(View()), Max(limit, 0))
      {
        var n := Min(remaining, |queue|);
        var events := queue[..n];
        if n == 0 {
          break;
        }
        ghost var whole := View();
        queue := queue[n..];
        remaining := remaining - n;
        assert whole == View().(queue := events[0..] + View().queue);
        for k := 0 to n
          invariant Drain(View().(queue := events[k..] + queue), n - k + remaining) == Drain(old(View()), Max(limit, 0))
          invariant processed + Outputs(View().(queue := events[k..] + queue), n - k + remaining)
                 == Outputs(old(View()), Max(limit, 0))
        {
          ghost var before := View();
          assert events[k..] == [events[k]] + events[k + 1..];
          DrainOne(before, events[k], events[k + 1..], n - k + remaining);
          var published := HandleEvent(events[k]);
          if published {
            processed := processed + [events[k].key.build];
          }
        }
        assert View().(queue := events[n..] + queue) == View();
      }
      DrainEnds(View(), remaining);
    }
  }

  lemma DrainEnds(s: State, n: nat)
    requires n == 0 || s.queue == []
    ensures Drain(s, n) == s && Outputs(s, n) == []
  {
  }

  // --- How many deliveries are left ----------------------------------------------------

  /** Deliveries that a job standing before this stage still gives rise to. */
  function Work(st: Stage): nat {
    match st case Staging => 5 case Building => 3 case Publishing => 1
  }

  function JobWork(s: State, key: Key): nat
    requires key in s.jobs
  {
    if OnStage(s, key) then Work(s.worker.stage)
    else if s.jobs[key].At? then Work(s.jobs[key].stage)
    else 0
  }

  function DeliveryWork(known: set<Key>, d: Delivery): nat {
    if d.Progress? then 1 else if d.key in known then 2 else 7
  }

  function QueueWork(known: set<Key>, q: seq<Delivery>): nat {
    if q == [] then 0 else QueueWork(known, q[..|q| - 1]) + DeliveryWork(known, q[|q| - 1])
  }

  function JobsWork(s: State): map<Key, nat> { map key | key in s.jobs :: JobWork(s, key) }

  function WorkerWork(w: Builder.Worker): nat { if w.Preparing? then 6 else 0 }

  ghost function Total(m: map<Key, nat>): nat {
    if m == map[] then 0 else var k :| k in m; m[k] + Total(m - {k})
  }

  /** An upper bound on the deliveries the worker will still take if nothing more
      is asked of it. */
  ghost function Owed(s: State): nat { QueueWork(s.jobs.Keys, s.queue) + Total(JobsWork(s)) + WorkerWork(s.worker) }

  lemma {:induction false} TotalTakes(m: map<Key, nat>, k: Key)
    requires k in m
    ensures Total(m) == m[k] + Total(m - {k})
  {
    var l :| l in m && Total(m) == m[l] + Total(m - {l});
    if l != k {
      TotalTakes(m - {l}, k);
      TotalTakes(m - {k}, l);
      assert m - {l} - {k} == m - {k} - {l};
    }
  }

  lemma TotalPut(m: map<Key, nat>, k: Key, v: nat)
    ensures Total(m[k := v]) == Total(m) - (if k in m then m[k] else 0) + v
  {
    TotalTakes(m[k := v], k);
    if k in m {
      TotalTakes(m, k);
      assert m[k := v] - {k} == m - {k};
    } else {
      assert m[k := v] - {k} == m;
    }
  }

  lemma {:induction false} QueueWorkJoins(known: set<Key>, q: seq<Delivery>, r: seq<Delivery>)
    ensures QueueWork(known, q + r) == QueueWork(known, q) + QueueWork(known, r)
  {
    if r == [] {
      assert q + r == q;
    } else {
      assert (q + r)[..|q + r| - 1] == q + r[..|r| - 1];
      QueueWorkJoins(known, q, r[..|r| - 1]);
    }
  }

  lemma QueueWorkWithout(known: set<Key>, q: seq<Delivery>, i: nat)
    requires i < |q|
    ensures QueueWork(known, q) == QueueWork(known, Without(q, i)) + DeliveryWork(known, q[i])
  {
    QueueWorkJoins(known, q[..i], q[i + 1..]);
    QueueWorkJoins(known, q[..i + 1], q[i + 1..]);
    assert q[..i + 1] + q[i + 1..] == q;
    assert q[..i + 1][..i] == q[..i];
  }

  predicate Unrequested(q: seq<Delivery>, key: Key) { forall i :: 0 <= i < |q| ==> q[i] != Request(key) }

  /** Learning of a job makes requests for it cheaper, and nothing else. */
  lemma {:induction false} QueueWorkLearns(known: set<Key>, key: Key, q: seq<Delivery>)
    ensures QueueWork(known + {key}, q) <= QueueWork(known, q)
    ensures Unrequested(q, key) ==> QueueWork(known + {key}, q) == QueueWork(known, q)
  {
    if q != [] {
      QueueWorkLearns(known, key, q[..|q| - 1]);
    }
  }

  lemma QueueWorkAppend(known: set<Key>, q: seq<Delivery>, d: Delivery)
    ensures QueueWork(known, q + [d]) == QueueWork(known, q) + DeliveryWork(known, d)
  {
    assert (q + [d])[..|q|] == q;
  }

  /** Taking a delivery costs at least one, and exactly one unless it is a request
      for a build that is settled. */
  lemma TakeOwes(s: State, d: Delivery)
    requires s.worker.Idle?
    ensures Owed(Take(s, d)) < Owed(s) + DeliveryWork(s.jobs.Keys, d)
    ensures d.Progress? || (d.key.build in s.builds && !Settled(s.builds[d.key.build])) ==>
              Owed(Take(s, d)) + 1 == Owed(s) + DeliveryWork(s.jobs.Keys, d)
  {
    hide QueueWork, Total;
    var t := Take(s, d);
    QueueWorkAppend(s.jobs.Keys, s.queue, Progress(d.key));
    assert JobsWork(t) == JobsWork(s);
  }

  lemma OwedWithout(s: State, i: nat)
    requires i < |s.queue|
    ensures Owed(s) == Owed(s.(queue := Without(s.queue, i))) + DeliveryWork(s.jobs.Keys, s.queue[i])
  {
    hide Without, QueueWork, Total;
    QueueWorkWithout(s.jobs.Keys, s.queue, i);
    assert JobsWork(s.(queue := Without(s.queue, i))) == JobsWork(s);
  }

  lemma BeginOwes(s: State, i: nat)
    requires s.worker.Idle? && i < |s.queue|
    ensures Owed(Apply(s, Begin(i))) < Owed(s)
  {
    hide Owed, Without, Take;
    OwedWithout(s, i);
    TakeOwes(s.(queue := Without(s.queue, i)), s.queue[i]);
  }

  lemma PrepareOwes(s: State)
    requires s.worker.Preparing? && s.worker.key !in s.jobs
    ensures Owed(Advance(s)) <= Owed(s)
    ensures Unrequested(s.queue, s.worker.key) ==> Owed(Advance(s)) == Owed(s)
  {
    hide QueueWork, Total;
    var t, key := Advance(s), s.worker.key;
    assert t.jobs.Keys == s.jobs.Keys + {key};
    QueueWorkAppend(t.jobs.Keys, s.queue, Progress(key));
    QueueWorkLearns(s.jobs.Keys, key, s.queue);
    assert JobsWork(t) == JobsWork(s)[key := 5];
    TotalPut(JobsWork(s), key, 5);
  }

  lemma StartOwes(s: State)
    requires s.worker.Starting? && s.worker.key in s.jobs
    ensures Owed(Advance(s)) == Owed(s)
  {
    hide QueueWork, Total;
    assert Advance(s).jobs.Keys == s.jobs.Keys;
    assert JobsWork(Advance(s)) == JobsWork(s);
  }

  lemma FinishOwes(s: State)
    requires s.worker.Busy? && s.worker.key in s.jobs
    ensures Owed(Advance(s)) == Owed(s)
  {
    hide QueueWork, Total;
    var t := Advance(s);
    var Busy(key, b, st) := s.worker;
    assert t.jobs.Keys == s.jobs.Keys;
    QueueWorkAppend(s.jobs.Keys, s.queue, Progress(key));
    QueueWorkAppend(s.jobs.Keys, s.queue + [Progress(key)], Progress(key));
    assert s.queue + [Progress(key)] + [Progress(key)] == s.queue + [Progress(key), Progress(key)];
    var v := if Next(st).Some? then Work(Next(st).value) else 0;
    FinishWork(s, v);
    hide JobsWork, Advance;
    TotalPut(JobsWork(s), key, v);
  }

  lemma FinishWork(s: State, v: nat)
    requires s.worker.Busy? && s.worker.key in s.jobs
    requires v == if Next(s.worker.stage).Some? then Work(Next(s.worker.stage).value) else 0
    ensures var key := s.worker.key;
            && JobsWork(Advance(s)) == JobsWork(s)[key := v]
            && key in JobsWork(s) && JobsWork(s)[key] == Work(s.worker.stage)
  {
  }

  /** The worker's saves neither add to what is owed nor, but for repeated requests,
      take away from it. */
  lemma AdvanceOwes(s: State)
    requires WorkerRight(s)
    ensures Owed(Advance(s)) <= Owed(s)
    ensures (s.worker.Preparing? ==> Unrequested(s.queue, s.worker.key)) ==> Owed(Advance(s)) == Owed(s)
  {
    hide Owed, Advance;
    match s.worker
    case Idle => AdvanceIdle(s);
    case Preparing(_, _) => PrepareOwes(s);
    case Starting(_, _, _) => StartOwes(s);
    case Busy(_, _, _) => FinishOwes(s);
  }

  // --- What a call achieves ---------------------------------------------------------------

  lemma InvWorker(s: State)
    requires Inv(s)
    ensures WorkerRight(s)
  {
  }

  /** Handling a delivery is three steps of the machine. */
  lemma HandleKeeps(s: State)
    requires Inv(s) && AllDriven(s) && s.worker.Idle? && s.queue != []
    ensures var t := Handle(s.(queue := s.queue[1..]), s.queue[0]);
            Inv(t) && AllDriven(t) && t.worker.Idle? && t.calls == s.calls && Owed(t) < Owed(s)
  {
    assert Without(s.queue, 0) == s.queue[1..];
    HandleEnds(s.(queue := s.queue[1..]), s.queue[0]);
    var t1 := Apply(s, Begin(0));
    var t2, t3 := Advance(t1), Advance(Advance(t1));
    assert t3 == Handle(s.(queue := s.queue[1..]), s.queue[0]);
    assert t2 == Apply(t1, Proceed) && t3 == Apply(t2, Proceed);
    hide Inv, AllDriven, Owed, Apply, Advance, Handle;
    StepKeeps(s, Begin(0));
    StepKeeps(t1, Proceed);
    StepKeeps(t2, Proceed);
    StepDrivesIff(s, Begin(0));
    StepDrivesIff(t1, Proceed);
    StepDrivesIff(t2, Proceed);
    BeginOwes(s, 0);
    InvWorker(t1);
    AdvanceOwes(t1);
    InvWorker(t2);
    AdvanceOwes(t2);
  }

  lemma NoneOwedNonePending(s: State)
    requires s.queue != []
    ensures Owed(s) > 0
  {
    assert QueueWork(s.jobs.Keys, s.queue) >= DeliveryWork(s.jobs.Keys, s.queue[|s.queue| - 1]);
  }

  /** A call whose limit covers what is owed leaves nothing pending and no build
      unfinished; how many deliveries that takes is bounded beforehand. */
  lemma {:induction false} DrainSettles(s: State, n: nat)
    requires Inv(s) && AllDriven(s) && s.worker.Idle?
    ensures Inv(Drain(s, n)) && AllDriven(Drain(s, n)) && Drain(s, n).worker.Idle? && Drain(s, n).calls == s.calls
    ensures n >= Owed(s) ==> Drain(s, n).queue == []
    ensures n >= Owed(s) && NonePublishing(s) ==>
              forall id :: id in Drain(s, n).builds ==> Settled(Drain(s, n).builds[id])
    decreases n
  {
    hide Owed, Handle, Inv;
    if s.queue == [] {
    } else if n == 0 {
      NoneOwedNonePending(s);
    } else {
      HandleKeeps(s);
      DrainSettles(Handle(s.(queue := s.queue[1..]), s.queue[0]), n - 1);
    }
  }

  /** Handling a delivery leaves settled builds and other builds alone. */
  lemma HandleTouches(u: State, d: Delivery)
    requires u.worker.Idle?
    ensures var t, id := Handle(u, d), d.key.build;
            || t.builds == u.builds
            || (id in u.builds && !Settled(u.builds[id]) && id in t.builds && t.builds == u.builds[id := t.builds[id]])
  {
    var id, t1 := d.key.build, Take(u, d);
    assert t1.builds == u.builds &&
           (t1.worker.Idle? || (t1.worker.key.build == id && id in u.builds && !Settled(u.builds[id])));
    hide Take;
    if !t1.worker.Idle? {
      AdvanceShape(t1);
      var t2 := Advance(t1);
      hide Advance;
      if !t2.worker.Idle? {
        AdvanceShape(t2);
      } else {
        AdvanceIdle(t2);
      }
    } else {
      AdvanceIdle(t1);
    }
  }

  lemma OthersUnpublished(u: State, d: Delivery, id: string)
    requires u.worker.Idle?
    ensures IsPublished(u, id) ==> IsPublished(Handle(u, d), id)
    ensures id != d.key.build ==> IsPublished(u, id) == IsPublished(Handle(u, d), id)
    ensures multiset(Output(u, d))[id] == if IsPublished(Handle(u, d), id) && !IsPublished(u, id) then 1 else 0
  {
    HandleTouches(u, d);
    hide Handle;
  }

  lemma {:induction false} DrainKeepsPublished(s: State, n: nat, id: string)
    requires s.worker.Idle? && IsPublished(s, id)
    ensures IsPublished(Drain(s, n), id)
    decreases n
  {
    if n > 0 && s.queue != [] {
      var u, d := s.(queue := s.queue[1..]), s.queue[0];
      OthersUnpublished(u, d, id);
      HandleEnds(u, d);
      hide Handle;
      DrainKeepsPublished(Handle(u, d), n - 1, id);
    }
  }

  /** The call returns each build it published, once, and no other. */
  lemma {:induction false} OutputsAre(s: State, n: nat, id: string)
    requires s.worker.Idle?
    ensures multiset(Outputs(s, n))[id] == if IsPublished(Drain(s, n), id) && !IsPublished(s, id) then 1 else 0
    decreases n
  {
    hide *;
    if n > 0 && s.queue != [] {
      var u, d := s.(queue := s.queue[1..]), s.queue[0];
      var t := Handle(u, d);
      HandleEnds(u, d);
      OutputsAre(t, n - 1, id);
      OthersUnpublished(u, d, id);
      if IsPublished(t, id) {
        DrainKeepsPublished(t, n - 1, id);
      }
      DrainUnfolds(s, n);
      SamePublished(s, u, id);
    } else {
      DrainEnds(s, n);
    }
  }

  lemma SamePublished(s: State, u: State, id: string)
    requires s.builds == u.builds
    ensures IsPublished(s, id) == IsPublished(u, id)
  {
  }

  lemma DrainUnfolds(s: State, n: nat)
    requires n > 0 && s.queue != []
    ensures var u, d := s.(queue := s.queue[1..]), s.queue[0];
            && Drain(s, n) == Drain(Handle(u, d), n - 1)
            && Outputs(s, n) == Output(u, d) + Outputs(Handle(u, d), n - 1)
  {
    hide Handle, Output;
  }

  // --- Seven deliveries a build ------------------------------------------------------------

  predicate Plain(step: Step) { step.Start? || step.Begin? || step.Proceed? }

  /** Deliveries taken in a run. */
  function Handled(steps: seq<Step>): nat {
    if steps == [] then 0 else
      var s := Run(EMPTY, steps[..|steps| - 1]);
      Handled(steps[..|steps| - 1]) + if TakesOne(s, steps[|steps| - 1]) then 1 else 0
  }

  predicate TakesOne(s: State, step: Step) { step.Begin? && s.worker.Idle? && step.i < |s.queue| }

  /** With no retry and no cancel, a build has one attempt and is asked for once. */
  predicate Tidy(s: State) {
    && (forall id :: id in s.builds ==> s.builds[id].status != Cancelled)
    && (forall k :: k in s.jobs ==> k.attempt == 1 && !s.jobs[k].Stopped?)
    && (forall i :: 0 <= i < |s.queue| ==> s.queue[i].key.attempt == 1)
    && (forall i :: 0 <= i < |s.queue| && s.queue[i].Request? ==> s.queue[i].key !in s.jobs)
    && (forall i, j :: 0 <= i < j < |s.queue| && s.queue[i].Request? ==> s.queue[i] != s.queue[j])
    && (s.worker.Preparing? ==> s.worker.key.attempt == 1 && Unrequested(s.queue, s.worker.key))
  }

  lemma TidyStart(s: State, id: string)
    requires Inv(s) && Tidy(s)
    ensures Tidy(StartBuild(s, id))
    ensures Owed(StartBuild(s, id)) == Owed(s) + if id in s.builds then 0 else 7
  {
    var t := StartBuild(s, id);
    if id !in s.builds {
      NewId(s, id);
      TidyAppend(s, t, Request(Key(id, 1)));
      hide Inv, Tidy, Owed;
      OwedGrows(s, t, Request(Key(id, 1)));
      assert Key(id, 1) !in s.jobs;
    }
  }

  lemma TidyAppend(s: State, t: State, d: Delivery)
    requires Tidy(s) && t.queue == s.queue + [d] && t.jobs == s.jobs && t.worker == s.worker && d.key.attempt == 1
    requires forall id :: id in t.builds ==> t.builds[id].status != Cancelled
    requires d.Request? ==>
               d.key !in s.jobs && Unrequested(s.queue, d.key) && !(s.worker.Preparing? && s.worker.key == d.key)
    ensures Tidy(t)
  {
    assert forall i :: 0 <= i < |s.queue| ==> t.queue[i] == s.queue[i];
  }

  lemma NewId(s: State, id: string)
    requires Inv(s) && id !in s.builds
    ensures forall k :: k in s.jobs ==> k.build != id
    ensures forall i :: 0 <= i < |s.queue| ==> s.queue[i].key.build != id
    ensures !Holds(s, id)
  {
    assert forall k :: k in s.jobs && JobRight(s, k) ==> k.build != id;
    hide JobRight;
    assert forall i :: 0 <= i < |s.queue| && Known(s, s.queue[i]) ==> s.queue[i].key.build != id;
  }

  lemma OwedGrows(s: State, t: State, d: Delivery)
    requires t.jobs == s.jobs && t.worker == s.worker && t.queue == s.queue + [d]
    ensures Owed(t) == Owed(s) + DeliveryWork(s.jobs.Keys, d)
  {
    QueueWorkAppend(s.jobs.Keys, s.queue, d);
    assert JobsWork(t) == JobsWork(s);
  }

  lemma TidyBegin(s: State, i: nat)
    requires Inv(s) && Tidy(s) && s.worker.Idle? && i < |s.queue|
    ensures Tidy(Apply(s, Begin(i)))
    ensures Owed(Apply(s, Begin(i))) + 1 == Owed(s)
  {
    var d := s.queue[i];
    var u := s.(queue := Without(s.queue, i));
    assert Known(s, d);
    UnsettledIfRequested(s, d, i);
    TidyWithout(s, i);
    hide Inv;
    TidyTake(u, d);
    hide Owed, Tidy, Take, Without;
    OwedWithout(s, i);
    TakeOwes(u, d);
  }

  lemma UnsettledIfRequested(s: State, d: Delivery, i: nat)
    requires PublishedRight(s) && Tidy(s) && i < |s.queue| && s.queue[i] == d && Known(s, d)
    ensures d.Request? ==> d.key !in s.jobs && !Settled(s.builds[d.key.build])
  {
    if s.builds[d.key.build].status == Published {
      var a: nat :| Complete(s, Key(d.key.build, a));
      assert Key(d.key.build, a) == d.key;
    }
  }

  lemma TidyWithout(s: State, i: nat)
    requires Tidy(s) && i < |s.queue|
    ensures var u := s.(queue := Without(s.queue, i));
            Tidy(u) && (s.queue[i].Request? ==> Unrequested(u.queue, s.queue[i].key))
  {
    var u := s.(queue := Without(s.queue, i));
    forall j | 0 <= j < |u.queue| ensures u.queue[j] == s.queue[if j < i then j else j + 1] {
    }
  }

  lemma TidyTake(u: State, d: Delivery)
    requires u.worker.Idle? && Tidy(u) && d.key.attempt == 1
    requires d.Request? ==> Unrequested(u.queue, d.key)
    ensures Tidy(Take(u, d))
  {
    var t := Take(u, d);
    if t.queue != u.queue {
      TidyAppend(u, t, Progress(d.key));
    }
  }

  lemma TidyAdvance(s: State)
    requires Tidy(s) && WorkerRight(s)
    ensures Tidy(Advance(s))
  {
    if !s.worker.Idle? {
      AdvanceShape(s);
      var t, key := Advance(s), s.worker.key;
      assert forall i :: 0 <= i < |Sent(s)| ==> Sent(s)[i] == Progress(key);
      assert s.worker.Idle? || key.attempt == 1;
      hide Advance, Sent;
      assert forall i :: |s.queue| <= i < |t.queue| ==> t.queue[i] == Progress(key);
      assert forall i :: 0 <= i < |s.queue| ==> t.queue[i] == s.queue[i];
    }
  }

  lemma PlainStep(s: State, step: Step)
    requires Inv(s) && Tidy(s) && Plain(step)
    ensures Tidy(Apply(s, step))
    ensures Owed(Apply(s, step)) + (if TakesOne(s, step) then 1 else 0)
         == Owed(s) + 7 * (|Apply(s, step).builds| - |s.builds|)
  {
    InvWorker(s);
    BuildsOf(s, step);
    match step
    case Start(id) =>
      hide Inv, Tidy, Owed, StartBuild, WorkerRight;
      TidyStart(s, id);
    case Begin(i) =>
      if s.worker.Idle? && i < |s.queue| {
        hide Inv, Tidy, Owed, Take, Without, WorkerRight;
        TidyBegin(s, i);
      }
    case Proceed =>
      TidyAdvance(s);
      AdvanceSize(s);
      assert s.worker.Preparing? ==> Unrequested(s.queue, s.worker.key);
      hide Inv, Tidy, Owed, Advance, Unrequested, WorkerRight;
      AdvanceOwes(s);
  }

  lemma PlainCalls(s: State, step: Step)
    requires Plain(step)
    ensures Apply(s, step).calls == s.calls
  {
  }

  lemma BuildsOf(s: State, step: Step)
    ensures step.Start? ==> |StartBuild(s, step.id).builds| == |s.builds| + (if step.id in s.builds then 0 else 1)
    ensures step.Begin? ==> Apply(s, step).builds == s.builds
  {
  }

  lemma AdvanceSize(s: State)
    requires WorkerRight(s)
    ensures |Advance(s).builds| == |s.builds|
  {
    var t := Advance(s);
    assert t.builds.Keys == s.builds.Keys;
    assert |t.builds| == |t.builds.Keys| && |s.builds| == |s.builds.Keys|;
  }

  lemma EmptyIsClean()
    ensures Inv(EMPTY) && AllDriven(EMPTY) && OneSuccess(EMPTY) && Tidy(EMPTY) && Owed(EMPTY) == 0
  {
  }

  lemma {:induction false} DeliveriesAddUp(steps: seq<Step>)
    requires forall i :: 0 <= i < |steps| ==> Plain(steps[i])
    ensures var s := Run(EMPTY, steps);
            Inv(s) && AllDriven(s) && Tidy(s) && s.calls == map[] && Handled(steps) + Owed(s) == 7 * |s.builds|
  {
    EmptyIsClean();
    hide Inv, Tidy, Owed, Apply, AllDriven;
    if steps != [] {
      var init, step := steps[..|steps| - 1], steps[|steps| - 1];
      DeliveriesAddUp(init);
      StepKeeps(Run(EMPTY, init), step);
      StepDrivesIff(Run(EMPTY, init), step);
      PlainStep(Run(EMPTY, init), step);
      PlainCalls(Run(EMPTY, init), step);
    }
  }

  lemma {:induction false} ZeroTotal(m: map<Key, nat>)
    requires forall k :: k in m ==> m[k] == 0
    ensures Total(m) == 0
    decreases |m|
  {
    if m != map[] {
      var k :| k in m && Total(m) == m[k] + Total(m - {k});
      ZeroTotal(m - {k});
    }
  }

  /** When the builds asked for are drained, in whatever order their deliveries
      were taken, each has been published, has run every stage once, and has cost
      exactly seven deliveries. */
  lemma SevenDeliveriesABuild(steps: seq<Step>)
    requires forall i :: 0 <= i < |steps| ==> Plain(steps[i])
    requires Run(EMPTY, steps).queue == [] && Run(EMPTY, steps).worker.Idle?
    ensures Handled(steps) == 7 * |Run(EMPTY, steps).builds|
    ensures forall id :: id in Run(EMPTY, steps).builds ==>
              IsPublished(Run(EMPTY, steps), id) && RanBy(Run(EMPTY, steps), Key(id, 1)) == Order()
  {
    DeliveriesAddUp(steps);
    hide Run;
    DrainedIsPublished(Run(EMPTY, steps));
  }

  lemma DrainedIsPublished(s: State)
    requires Inv(s) && AllDriven(s) && Tidy(s) && s.queue == [] && s.worker.Idle? && s.calls == map[]
    ensures Owed(s) == 0
    ensures forall id :: id in s.builds ==> IsPublished(s, id) && RanBy(s, Key(id, 1)) == Order()
  {
    forall id | id in s.builds ensures IsPublished(s, id) && Complete(s, Key(id, 1)) {
      assert Settled(s.builds[id]);
      var a: nat :| Complete(s, Key(id, a));
      assert a == 1;
    }
    StagesInOrder();
    forall k | k in s.jobs ensures JobWork(s, k) == 0 {
      assert JobRight(s, k) && k == Key(k.build, 1) && Complete(s, k);
    }
    ZeroTotal(JobsWork(s));
  }
}
