/**
  Runs of the builder in which a late save undoes a publication or a cancel, or
  leaves a build behind.
 */
module BuildRaces {
  import opened Common
  import opened Builder
  import opened BuildRuns

  /** One build just asked for, which call 0 has read to cancel or to retry. */
  function AskedAndRead(id: string, retry: bool): seq<Step> {
    [Start(id), if retry then ReadRetry(0, id) else ReadCancel(0, id)]
  }

  lemma AskedAndReadIs(id: string, retry: bool)
    ensures var b := Build(Accepted, 0);
            Run(EMPTY, AskedAndRead(id, retry)) ==
            State(map[id := b], map[], [Request(Key(id, 1))], Idle,
                  map[0 := if retry then WillRetry(id, b) else WillCancel(id, b)], map[])
  {
    Run2(EMPTY, Start(id), if retry then ReadRetry(0, id) else ReadCancel(0, id));
    hide Run;
  }

  function PublishedMeanwhile(id: string, retry: bool): seq<Step> { AskedAndRead(id, retry) + AttemptSteps(0, 0) }

  lemma PublishedMeanwhileIs(id: string, retry: bool)
    ensures var t, key := Run(EMPTY, PublishedMeanwhile(id, retry)), Key(id, 1);
            && t.worker.Idle? && t.calls == Run(EMPTY, AskedAndRead(id, retry)).calls
            && t.builds == map[id := Build(Published, 0)] && t.jobs == map[key := Succeeded]
            && t.queue == Copies(Progress(key), 3)
  {
    AskedAndReadIs(id, retry);
    var s := Run(EMPTY, AskedAndRead(id, retry));
    AttemptPublishes(s, 0, Key(id, 1));
    hide AskedAndRead, AttemptSteps;
    RunConcat(EMPTY, AskedAndRead(id, retry), AttemptSteps(0, 0));
    hide Run;
  }

  /** A retry and a cancel that read their build before it was published, and save
      after, take it out of Published. */
  lemma PublishedCanBeLost(id: string, retry: bool)
    ensures IsPublished(Run(EMPTY, PublishedMeanwhile(id, retry)), id)
    ensures var t := Run(EMPTY, PublishedMeanwhile(id, retry) + [Continue(0)]);
            id in t.builds && t.builds[id].status == (if retry then Accepted else Cancelled)
  {
    PublishedMeanwhileIs(id, retry);
    AskedAndReadIs(id, retry);
    RunConcat(EMPTY, PublishedMeanwhile(id, retry), [Continue(0)]);
    RunOne(Run(EMPTY, PublishedMeanwhile(id, retry)), Continue(0));
    hide Run;
  }

  /** A retry's save and publication, with nobody in between. */
  lemma RetryGoes(s: State, c: nat, id: string, read: Build)
    requires c in s.calls && s.calls[c] == WillRetry(id, read)
    ensures Run(s, [Continue(c), Continue(c)]) ==
            s.(builds := s.builds[id := Retried(read)], queue := s.queue + [Request(Attempt(id, Retried(read)))],
               calls := s.calls - {c})
  {
    Run2(s, Continue(c), Continue(c));
    hide Run;
    assert s.calls[c := WillPublish(Attempt(id, Retried(read)))] - {c} == s.calls - {c};
  }

  /** The retry's own attempt then publishes the build a second time. */
  lemma TwoAttemptsPublish(id: string)
    ensures var t := Run(EMPTY, PublishedMeanwhile(id, true) + [Continue(0), Continue(0)] + AttemptSteps(3, 3));
            && IsPublished(t, id) && Key(id, 1) in t.jobs && Key(id, 2) in t.jobs
            && t.jobs[Key(id, 1)] == Succeeded && t.jobs[Key(id, 2)] == Succeeded
  {
    var steps := PublishedMeanwhile(id, true) + [Continue(0), Continue(0)];
    RevivedIs(id);
    hide AttemptSteps, PublishedMeanwhile, Run, Copies;
    var s := Run(EMPTY, steps);
    RunConcat(EMPTY, steps, AttemptSteps(3, 3));
    assert s.queue[3] == Request(Key(id, 2));
    AttemptPublishes(s, 3, Key(id, 2));
  }

  lemma RevivedIs(id: string)
    ensures var s := Run(EMPTY, PublishedMeanwhile(id, true) + [Continue(0), Continue(0)]);
            && s.queue == Copies(Progress(Key(id, 1)), 3) + [Request(Key(id, 2))] && s.worker.Idle?
            && s.jobs == map[Key(id, 1) := Succeeded] && s.builds == map[id := Build(Accepted, 1)]
  {
    PublishedMeanwhileIs(id, true);
    AskedAndReadIs(id, true);
    RunConcat(EMPTY, PublishedMeanwhile(id, true), [Continue(0), Continue(0)]);
    RetryGoes(Run(EMPTY, PublishedMeanwhile(id, true)), 0, id, Build(Accepted, 0));
    hide Apply, AttemptSteps, PublishedMeanwhile, AskedAndRead, Run, Copies;
  }

  /** A cancel is lost while the worker prepares the job, ... */
  lemma CancelLostInPreparation(id: string)
    ensures IsCancelled(Run(EMPTY, [Start(id), Begin(0)] + [ReadCancel(0, id), Continue(0)]), id)
    ensures !IsCancelled(Run(EMPTY, [Start(id), Begin(0)] + [ReadCancel(0, id), Continue(0)] + [Proceed]), id)
  {
    var s := Run(EMPTY, [Start(id), Begin(0)]);
    Run2(EMPTY, Start(id), Begin(0));
    assert Without([Request(Key(id, 1))], 0) == [];
    assert Holds(s, id) && s.builds == map[id := Build(Accepted, 0)] && s.calls == map[];
    EmptyHolds();
    LostWhileHeld([Start(id), Begin(0)], id);
  }

  /** ... and while a stage runs, ... */
  lemma CancelLostInStage(id: string)
    ensures var steps := [Start(id), Begin(0), Proceed] + [Begin(0), Proceed];
            && IsCancelled(Run(EMPTY, steps + [ReadCancel(0, id), Continue(0)]), id)
            && !IsCancelled(Run(EMPTY, steps + [ReadCancel(0, id), Continue(0)] + [Proceed]), id)
  {
    var steps := [Start(id), Begin(0), Proceed] + [Begin(0), Proceed];
    InStageIs(id);
    hide Run, Apply;
    LostWhileHeld(steps, id);
  }

  /** A build whose first stage runs. */
  lemma InStageIs(id: string)
    ensures var key, b := Key(id, 1), Build(InStage(Staging), 0);
            var t := Run(EMPTY, [Start(id), Begin(0), Proceed] + [Begin(0), Proceed]);
            && t.builds == map[id := b] && t.jobs == map[key := At(Staging)] && t.queue == []
            && t.worker == Busy(key, b, Staging) && t.calls == map[]
  {
    var key := Key(id, 1);
    RunOne(EMPTY, Start(id));
    var s := Run(EMPTY, [Start(id)]);
    JobPrepared(s, 0, key);
    RunConcat(EMPTY, [Start(id)], [Begin(0), Proceed]);
    assert [Start(id)] + [Begin(0), Proceed] == [Start(id), Begin(0), Proceed];
    var t := Run(EMPTY, [Start(id), Begin(0), Proceed]);
    assert Without(s.queue, 0) == [] && Without([Progress(key)], 0) == [];
    StageBegun(t, 0, key, Staging);
    RunConcat(EMPTY, [Start(id), Begin(0), Proceed], [Begin(0), Proceed]);
    hide Run, Apply;
  }

  /** In general whenever the worker holds the build. */
  lemma LostWhileHeld(steps: seq<Step>, id: string)
    requires Holds(Run(EMPTY, steps), id) && Run(EMPTY, steps).calls == map[]
    requires id in Run(EMPTY, steps).builds && !Settled(Run(EMPTY, steps).builds[id])
    ensures IsCancelled(Run(EMPTY, steps + [ReadCancel(0, id), Continue(0)]), id)
    ensures !IsCancelled(Run(EMPTY, steps + [ReadCancel(0, id), Continue(0)] + [Proceed]), id)
  {
    var s := Run(EMPTY, steps);
    EmptyHolds();
    RunKeeps(EMPTY, steps);
    RunConcat(EMPTY, steps, [ReadCancel(0, id), Continue(0)]);
    RunConcat(EMPTY, steps + [ReadCancel(0, id), Continue(0)], [Proceed]);
    Run2(s, ReadCancel(0, id), Continue(0));
    hide Run;
    ReadKeeps(s, 0, id, false);
    var t := Apply(s, ReadCancel(0, id));
    ContinueKeeps(t, 0);
    CancelSaved(t, 0);
    hide Inv;
    RunOne(ContinueCall(t, 0), Proceed);
    CancelledStaysIff(ContinueCall(t, 0), Proceed, id);
  }

  function CancelledInStage(id: string): seq<Step> {
    [Start(id), Begin(0), Proceed] + [Begin(0), Proceed] + [ReadCancel(0, id), Continue(0)]
  }

  lemma CancelledInStageIs(id: string)
    ensures var key, b := Key(id, 1), Build(InStage(Staging), 0);
            var t := Run(EMPTY, CancelledInStage(id));
            && t.builds == map[id := Build(Cancelled, 0)] && t.jobs == map[key := At(Staging)] && t.queue == []
            && t.worker == Busy(key, b, Staging) && t.calls == map[0 := WillLook(key)]
  {
    var key, first := Key(id, 1), [Start(id), Begin(0), Proceed] + [Begin(0), Proceed];
    InStageIs(id);
    hide Run;
    ReadAndCancel(first, id);
  }

  lemma ReadAndCancel(steps: seq<Step>, id: string)
    requires Unsettled(Run(EMPTY, steps), id) && Run(EMPTY, steps).calls == map[]
    ensures var s := Run(EMPTY, steps);
            Run(EMPTY, steps + [ReadCancel(0, id), Continue(0)]) ==
            s.(builds := s.builds[id := s.builds[id].(status := Cancelled)],
               calls := map[0 := WillLook(Attempt(id, s.builds[id]))])
  {
    hide *;
    var s := Run(EMPTY, steps);
    RunConcat(EMPTY, steps, [ReadCancel(0, id), Continue(0)]);
    Run2(s, ReadCancel(0, id), Continue(0));
    CancelSaves(s, 0, id);
  }

  lemma CancelSaves(s: State, c: nat, id: string)
    requires Unsettled(s, id) && c !in s.calls
    ensures Apply(Apply(s, ReadCancel(c, id)), Continue(c)) ==
            s.(builds := s.builds[id := s.builds[id].(status := Cancelled)],
               calls := s.calls[c := WillLook(Attempt(id, s.builds[id]))])
  {
  }

  /** The worker's save brings the build back, and its job and deliveries with it; then
      the cancel stops the job, and the deliveries come to nothing: the build is left
      building, with nothing queued, nothing held and no call open. */
  lemma StopStrandsBuild(id: string)
    ensures var t := Run(EMPTY, CancelledInStage(id) + [Proceed, Continue(0), Continue(0)] + [Begin(0), Begin(0)]);
            && t.queue == [] && t.worker.Idle? && t.calls == map[]
            && t.builds == map[id := Build(InStage(Building), 0)]
  {
    var key, late := Key(id, 1), [Proceed, Continue(0), Continue(0)];
    CancelledInStageIs(id);
    var s := Run(EMPTY, CancelledInStage(id));
    hide CancelledInStage;
    RunConcat(EMPTY, CancelledInStage(id), late);
    RunConcat(EMPTY, CancelledInStage(id) + late, [Begin(0), Begin(0)]);
    Run3(s, Proceed, Continue(0), Continue(0));
    hide Run;
    LateStop(s, key);
    var t := Run(s, late);
    Run2(t, Begin(0), Begin(0));
    hide Apply;
    EndedProgresses(t, key);
  }

  lemma LateStop(s: State, key: Key)
    requires s.builds == map[key.build := Build(Cancelled, 0)] && s.jobs == map[key := At(Staging)] && s.queue == []
    requires s.worker == Busy(key, Build(InStage(Staging), 0), Staging) && s.calls == map[0 := WillLook(key)]
    ensures var t := Apply(Apply(Apply(s, Proceed), Continue(0)), Continue(0));
            && t.queue == [Progress(key), Progress(key)] && t.worker.Idle? && t.calls == map[]
            && t.builds == map[key.build := Build(InStage(Building), 0)] && t.jobs == map[key := Stopped]
  {
    var t := Apply(s, Proceed);
    assert t.builds == map[key.build := Build(InStage(Building), 0)] && t.jobs == map[key := At(Building)];
    var u := Apply(t, Continue(0));
    assert u.calls == map[0 := WillStop(key)];
    assert u.calls - {0} == map[];
  }

  /** Deliveries of a stopped job come to nothing. */
  lemma EndedProgresses(s: State, key: Key)
    requires s.worker.Idle? && s.queue == [Progress(key), Progress(key)] && Ended(s, key)
    ensures Apply(Apply(s, Begin(0)), Begin(0)) == s.(queue := [])
  {
    assert Without(s.queue, 0) == [Progress(key)];
    assert Apply(s, Begin(0)) == s.(queue := [Progress(key)]);
    hide Apply;
    EndedProgress(s.(queue := [Progress(key)]), key);
  }

  /** ... and to a retry that read the build before it. */
  lemma CancelLostToRetry(id: string)
    ensures IsCancelled(Run(EMPTY, AskedAndRead(id, true) + [ReadCancel(1, id), Continue(1)]), id)
    ensures !IsCancelled(Run(EMPTY, AskedAndRead(id, true) + [ReadCancel(1, id), Continue(1)] + [Continue(0)]), id)
  {
    AskedAndReadIs(id, true);
    var s := Run(EMPTY, AskedAndRead(id, true));
    RunConcat(EMPTY, AskedAndRead(id, true), [ReadCancel(1, id), Continue(1)]);
    RunConcat(EMPTY, AskedAndRead(id, true) + [ReadCancel(1, id), Continue(1)], [Continue(0)]);
    Run2(s, ReadCancel(1, id), Continue(1));
    var t := Apply(Apply(s, ReadCancel(1, id)), Continue(1));
    RunOne(t, Continue(0));
    hide Run;
  }

  /** Two retries that read the same row ask for the same attempt; it publishes before
      the second has saved. */
  function TwiceRetried(id: string): seq<Step> {
    OnceRetried(id) + AttemptSteps(1, 1)
  }

  function OnceRetried(id: string): seq<Step> {
    [Start(id), ReadRetry(0, id), ReadRetry(1, id)] + [Continue(0), Continue(0)]
  }

  lemma OnceRetriedIs(id: string)
    ensures var t := Run(EMPTY, OnceRetried(id));
            && t.worker.Idle? && t.calls == map[1 := WillRetry(id, Build(Accepted, 0))]
            && t.builds == map[id := Build(Accepted, 1)] && t.jobs == map[]
            && t.queue == [Request(Key(id, 1)), Request(Key(id, 2))]
  {
    var b := Build(Accepted, 0);
    var begun := [Start(id), ReadRetry(0, id), ReadRetry(1, id)];
    Run3(EMPTY, Start(id), ReadRetry(0, id), ReadRetry(1, id));
    RunConcat(EMPTY, begun, [Continue(0), Continue(0)]);
    var s := Run(EMPTY, begun);
    var calls := map[0 := WillRetry(id, b), 1 := WillRetry(id, b)];
    assert s == State(map[id := b], map[], [Request(Key(id, 1))], Idle, calls, map[]);
    assert calls - {0} == map[1 := WillRetry(id, b)];
    hide Run, Apply;
    RetryGoes(s, 0, id, b);
  }

  lemma TwiceRetriedIs(id: string)
    ensures var t, two := Run(EMPTY, TwiceRetried(id)), Key(id, 2);
            && t.worker.Idle? && t.calls == map[1 := WillRetry(id, Build(Accepted, 0))]
            && t.builds == map[id := Build(Published, 1)] && t.jobs == map[two := Succeeded]
            && t.queue == [Request(Key(id, 1)), Progress(two), Progress(two), Progress(two)]
  {
    OnceRetriedIs(id);
    hide Run, AttemptSteps, OnceRetried;
    var s := Run(EMPTY, OnceRetried(id));
    RunConcat(EMPTY, OnceRetried(id), AttemptSteps(1, 1));
    AttemptPublishes(s, 1, Key(id, 2));
    assert Without(s.queue, 1) == [Request(Key(id, 1))];
  }

  lemma DropSettled(s: State, d: Delivery, rest: seq<Delivery>)
    requires s.worker.Idle? && s.queue == [d] + rest && IsSettled(s, d.key.build)
    ensures Apply(s, Begin(0)) == s.(queue := rest)
  {
    assert Without(s.queue, 0) == rest;
  }

  lemma DropFour(s: State, id: string, a: Delivery, b: Delivery, c: Delivery, d: Delivery)
    requires s.worker.Idle? && s.queue == [a, b, c, d] && IsSettled(s, id)
    requires a.key.build == id && b.key.build == id && c.key.build == id && d.key.build == id
    ensures Run(s, [Begin(0), Begin(0)] + [Begin(0), Begin(0)]) == s.(queue := [])
  {
    hide Apply, Run;
    DropTwo(s, id, a, b, [c, d]);
    DropTwo(s.(queue := [c, d]), id, c, d, []);
    RunConcat(s, [Begin(0), Begin(0)], [Begin(0), Begin(0)]);
  }

  lemma DropTwo(s: State, id: string, a: Delivery, b: Delivery, rest: seq<Delivery>)
    requires s.worker.Idle? && s.queue == [a, b] + rest && IsSettled(s, id) && a.key.build == id && b.key.build == id
    ensures Run(s, [Begin(0), Begin(0)]) == s.(queue := rest)
  {
    Run2(s, Begin(0), Begin(0));
    hide Apply, Run, Settled;
    assert s.queue == [a] + ([b] + rest);
    DropSettled(s, a, [b] + rest);
    var t := s.(queue := [b] + rest);
    assert IsSettled(t, id);
    DropSettled(t, b, rest);
  }

  /** When the second then saves, its request is for an attempt that has ended: the
      build is left waiting with nothing queued. */
  lemma RevivedBuildWaits(id: string)
    ensures var t := Run(EMPTY, TwiceRetried(id) + ([Begin(0), Begin(0)] + [Begin(0), Begin(0)]) +
            ([Continue(1), Continue(1)] + [Begin(0), Begin(0)]));
            && t.queue == [] && t.worker.Idle? && t.calls == map[]
            && id in t.builds && t.builds[id].status == Accepted
  {
    var two, four := Key(id, 2), [Begin(0), Begin(0)] + [Begin(0), Begin(0)];
    TwiceRetriedIs(id);
    var s := Run(EMPTY, TwiceRetried(id));
    hide TwiceRetried, Run, Apply;
    DropFour(s, id, Request(Key(id, 1)), Progress(two), Progress(two), Progress(two));
    RunConcat(EMPTY, TwiceRetried(id), four);
    RunConcat(EMPTY, TwiceRetried(id) + four, [Continue(1), Continue(1)] + [Begin(0), Begin(0)]);
    LateRequestDrops(s.(queue := []), id);
  }

  lemma LateRequestDrops(s: State, id: string)
    requires s.worker.Idle? && s.queue == [] && s.calls == map[1 := WillRetry(id, Build(Accepted, 0))]
    requires s.builds == map[id := Build(Published, 1)] && s.jobs == map[Key(id, 2) := Succeeded]
    ensures var t := Run(s, [Continue(1), Continue(1)] + [Begin(0), Begin(0)]);
            && t.queue == [] && t.worker.Idle? && t.calls == map[]
            && id in t.builds && t.builds[id].status == Accepted
  {
    var two := Key(id, 2);
    RunConcat(s, [Continue(1), Continue(1)], [Begin(0), Begin(0)]);
    LateRetrySaves(s, id);
    var t := Run(s, [Continue(1), Continue(1)]);
    Run2(t, Begin(0), Begin(0));
    hide Run, Apply;
    EndedRequest(t, two);
    EndedProgress(t.(queue := [Progress(two)]), two);
  }

  lemma LateRetrySaves(s: State, id: string)
    requires s.queue == [] && s.calls == map[1 := WillRetry(id, Build(Accepted, 0))]
    ensures var t := Run(s, [Continue(1), Continue(1)]);
            && t.worker == s.worker && t.queue == [Request(Key(id, 2))] && t.calls == map[] && t.jobs == s.jobs
            && id in t.builds && t.builds[id] == Build(Accepted, 1)
  {
    RetryGoes(s, 1, id, Build(Accepted, 0));
    assert s.calls - {1} == map[];
  }

  /** A request for an attempt that has ended gives rise to one more delivery, ... */
  lemma EndedRequest(s: State, key: Key)
    requires s.worker.Idle? && s.queue == [Request(key)] && Ended(s, key)
    requires key.build in s.builds && !Settled(s.builds[key.build])
    ensures Apply(s, Begin(0)) == s.(queue := [Progress(key)])
  {
    assert Without(s.queue, 0) == [];
  }

  /** ... which does nothing. */
  lemma EndedProgress(s: State, key: Key)
    requires s.worker.Idle? && s.queue == [Progress(key)] && Ended(s, key)
    ensures Apply(s, Begin(0)) == s.(queue := [])
  {
    assert Without(s.queue, 0) == [];
  }
}
