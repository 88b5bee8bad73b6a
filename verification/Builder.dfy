/**
  The image builder: builds, the staged job of each attempt, and the one worker
  that moves jobs on by working off a queue of deliveries. Cancelling, retrying and
  working on a build each read its row first and save the whole of it later, over
  whatever others have saved in between. Reading and saving are separate steps, and
  so is what a cancel or a retry does after its save: stopping the job, publishing
  the request. Runs are free of failures.
 */
module Builder {
  import opened Common

  datatype Stage = Staging | Building | Publishing

  datatype Status = Accepted | InStage(stage: Stage) | Published | Cancelled

  datatype Build = Build(status: Status, retryCount: nat)

  /** A job belongs to one attempt of one build. */
  datatype Key = Key(build: string, attempt: nat)

  datatype Job = At(stage: Stage) | Succeeded | Stopped

  datatype Delivery = Request(key: Key) | Progress(key: Key)

  /** The worker, with the build row it has read and not saved. */
  datatype Worker =
    | Idle
    | Preparing(key: Key, build: Build)                // a request's, to create its job
    | Starting(key: Key, build: Build, stage: Stage)   // a job's, to start its stage
    | Busy(key: Key, build: Build, stage: Stage)       // a job's, while its stage runs

  /** A request from outside, by what it does next. */
  datatype Call =
    | WillCancel(id: string, build: Build)   // save the build it has read as cancelled
    | WillLook(key: Key)                     // read the attempt's job
    | WillStop(key: Key)                     // save the job, which it read unfinished, as stopped
    | WillRetry(id: string, build: Build)    // save the build it has read as accepted
    | WillPublish(key: Key)                  // publish the request for the new attempt

  datatype State = State(
    builds: map<string, Build>, jobs: map<Key, Job>, queue: seq<Delivery>, worker: Worker,
    calls: map<nat, Call>,
    ran: map<Key, seq<Stage>>)   // the stages run so far, for an onlooker

  datatype Step =
    | Start(id: string)
    | ReadCancel(c: nat, id: string)
    | ReadRetry(c: nat, id: string)
    | Continue(c: nat)           // the next step of a call
    | Begin(i: nat)              // take any outstanding delivery
    | Proceed                    // save what the worker has read, or what its stage came to

  // --- Steps ---------------------------------------------------------------------

  function Order(): seq<Stage> { [Staging, Building, Publishing] }

  function Index(st: Stage): nat {
    match st case Staging => 0 case Building => 1 case Publishing => 2
  }

  function Next(st: Stage): Option<Stage> {
    match st case Staging => Some(Building) case Building => Some(Publishing) case Publishing => None
  }

  predicate Settled(b: Build) { b.status == Published || b.status == Cancelled }

  function StartBuild(s: State, id: string): State {
    if id in s.builds then s
    else s.(builds := s.builds[id := Build(Accepted, 0)], queue := s.queue + [Request(Key(id, 1))])
  }

  /** Both calls leave a published or cancelled build alone. */
  function ReadBuild(s: State, c: nat, id: string, retry: bool): State {
    if c in s.calls || id !in s.builds || Settled(s.builds[id]) then s
    else s.(calls := s.calls[c := if retry then WillRetry(id, s.builds[id]) else WillCancel(id, s.builds[id])])
  }

  /** The row as a retry saves it. */
  function Retried(read: Build): Build { Build(Accepted, read.retryCount + 1) }

  /** The attempt the build stands at. */
  function Attempt(id: string, b: Build): Key { Key(id, b.retryCount + 1) }

  function ContinueCall(s: State, c: nat): State {
    if c !in s.calls then s else
      match s.calls[c]
      case WillCancel(id, read) =>
        s.(builds := s.builds[id := read.(status := Cancelled)], calls := s.calls[c := WillLook(Attempt(id, read))])
      case WillLook(key) =>
        s.(calls := if key in s.jobs && s.jobs[key].At? then s.calls[c := WillStop(key)] else s.calls - {c})
      case WillStop(key) =>
        s.(jobs := s.jobs[key := Stopped], calls := s.calls - {c})
      case WillRetry(id, read) =>
        s.(builds := s.builds[id := Retried(read)], calls := s.calls[c := WillPublish(Attempt(id, Retried(read)))])
      case WillPublish(key) =>
        s.(queue := s.queue + [Request(key)], calls := s.calls - {c})
  }

  /** A delivery the worker has taken off the queue. */
  function Take(s: State, d: Delivery): State {
    var id := d.key.build;
    if id !in s.builds || Settled(s.builds[id]) then s
    else if d.Request? then
      if d.key in s.jobs then s.(queue := s.queue + [Progress(d.key)])
      else s.(worker := Preparing(d.key, s.builds[id]))
    else if d.key !in s.jobs || !s.jobs[d.key].At? then s
    else s.(worker := Starting(d.key, s.builds[id], s.jobs[d.key].stage))
  }

  function PrepareJob(s: State, key: Key, read: Build): State {
    s.(builds := s.builds[key.build := read.(status := InStage(Staging))],
       jobs := s.jobs[key := At(Staging)],
       queue := s.queue + [Progress(key)], worker := Idle)
  }

  function StartStage(s: State, key: Key, read: Build, st: Stage): State {
    var b := read.(status := InStage(st));
    s.(builds := s.builds[key.build := b], jobs := s.jobs[key := At(st)], worker := Busy(key, b, st),
       ran := s.ran[key := RanBy(s, key) + [st]])
  }

  function FinishStage(s: State, key: Key, b: Build, st: Stage): State {
    match Next(st)
    case Some(next) =>
      s.(builds := s.builds[key.build := b.(status := InStage(next))],
         jobs := s.jobs[key := At(next)],
         queue := s.queue + [Progress(key), Progress(key)], worker := Idle)
    case None =>
      s.(builds := s.builds[key.build := Build(Published, Max(b.retryCount, Max(0, key.attempt - 1)))],
         jobs := s.jobs[key := Succeeded],
         queue := s.queue + [Progress(key)], worker := Idle)
  }

  function Advance(s: State): State {
    match s.worker
    case Idle => s
    case Preparing(key, read) => PrepareJob(s, key, read)
    case Starting(key, read, st) => StartStage(s, key, read, st)
    case Busy(key, b, st) => FinishStage(s, key, b, st)
  }

  function Apply(s: State, step: Step): State {
    match step
    case Start(id) => StartBuild(s, id)
    case ReadCancel(c, id) => ReadBuild(s, c, id, false)
    case ReadRetry(c, id) => ReadBuild(s, c, id, true)
    case Continue(c) => ContinueCall(s, c)
    case Begin(i) =>
      if !s.worker.Idle? || i >= |s.queue| then s
      else Take(s.(queue := Without(s.queue, i)), s.queue[i])
    case Proceed => Advance(s)
  }

  function Without(q: seq<Delivery>, i: nat): seq<Delivery>
    requires i < |q|
  {
    q[..i] + q[i + 1..]
  }

  function Run(s: State, steps: seq<Step>): State {
    if steps == [] then s else Apply(Run(s, steps[..|steps| - 1]), steps[|steps| - 1])
  }

  const EMPTY := State(map[], map[], [], Idle, map[], map[])

  function RanBy(s: State, key: Key): seq<Stage> { if key in s.ran then s.ran[key] else [] }

  // --- What every step keeps ----------------------------------------------------------

  /** The worker has read this build and not saved it. */
  predicate Holds(s: State, id: string) { !s.worker.Idle? && s.worker.key.build == id }

  predicate OnStage(s: State, key: Key) { (s.worker.Starting? || s.worker.Busy?) && s.worker.key == key }

  function Before(st: Stage): seq<Stage> { Order()[..Index(st)] }

  predicate InOrder(ran: seq<Stage>) { |ran| <= 3 && ran == Order()[..|ran|] }

  /** A job's stage says which stages have run. */
  predicate JobRight(s: State, key: Key)
    requires key in s.jobs
  {
    && key.build in s.builds
    && InOrder(RanBy(s, key))
    && (if OnStage(s, key) then
          s.jobs[key] in {At(s.worker.stage), Stopped} &&
          RanBy(s, key) == Before(s.worker.stage) + (if s.worker.Busy? then [s.worker.stage] else [])
        else match s.jobs[key]
          case At(st) => RanBy(s, key) == Before(st)
          case Succeeded => RanBy(s, key) == Order()
          case Stopped => true)
  }

  predicate JobsRight(s: State) {
    && (forall key :: key in s.jobs ==> JobRight(s, key))
    && (forall key :: key in s.ran ==> key in s.jobs)
  }

  predicate Known(s: State, d: Delivery) {
    d.key.build in s.builds && (d.Progress? ==> d.key in s.jobs)
  }

  predicate QueueRight(s: State) {
    forall i :: 0 <= i < |s.queue| ==> Known(s, s.queue[i])
  }

  predicate WorkerRight(s: State) {
    !s.worker.Idle? ==>
      && s.worker.key.build in s.builds && s.builds[s.worker.key.build].status != Published
      && (if s.worker.Preparing? then s.worker.key !in s.jobs else s.worker.key in s.jobs)
      && !Settled(s.worker.build)
  }

  /** What a call has read was not settled. */
  predicate CallRight(s: State, call: Call) {
    match call
    case WillCancel(id, read) => id in s.builds && !Settled(read)
    case WillRetry(id, read) => id in s.builds && !Settled(read)
    case WillLook(key) => key.build in s.builds
    case WillStop(key) => key in s.jobs && key.build in s.builds
    case WillPublish(key) => key.build in s.builds
  }

  predicate CallsRight(s: State) {
    forall c :: c in s.calls ==> CallRight(s, s.calls[c])
  }

  /** Every stage of the job has run to its end. A cancel that read the job before may
      since have saved it as stopped. */
  predicate Complete(s: State, key: Key) { key in s.jobs && RanBy(s, key) == Order() && !OnStage(s, key) }

  ghost predicate PublishedRight(s: State) {
    forall id :: id in s.builds && s.builds[id].status == Published ==> exists a: nat :: Complete(s, Key(id, a))
  }

  /** Holds in every run. */
  ghost predicate Inv(s: State) {
    JobsRight(s) && QueueRight(s) && WorkerRight(s) && CallsRight(s) && PublishedRight(s)
  }

  lemma StagesInOrder()
    ensures InOrder([]) && Before(Staging) == [] && InOrder(Order())
    ensures forall st: Stage :: InOrder(Before(st)) && InOrder(Before(st) + [st]) && |Before(st)| < 3
    ensures forall st: Stage :: Before(st) + [st] == (if Next(st).Some? then Before(Next(st).value) else Order())
  {
    assert Before(Staging) == [] && Before(Building) == [Staging] && Before(Publishing) == [Staging, Building];
    forall st: Stage ensures InOrder(Before(st) + [st]) {
      match st case Staging => case Building => case Publishing =>
    }
  }

  // --- Steps from outside -------------------------------------------------------------

  lemma SameJobs(s: State, t: State)
    requires JobsRight(s) && forall id :: id in s.builds ==> id in t.builds
    requires t.jobs == s.jobs && t.ran == s.ran && t.worker == s.worker
    ensures JobsRight(t)
  {
    hide InOrder, Order, Before;
    forall k | k in t.jobs ensures JobRight(t, k) {
      assert JobRight(s, k);
    }
  }

  /** Deliveries of known builds are added, or taken away. */
  lemma SameQueue(s: State, t: State, more: seq<Delivery>)
    requires QueueRight(s) && (forall id :: id in s.builds ==> id in t.builds) &&
             (forall k :: k in s.jobs ==> k in t.jobs)
    requires t.queue == s.queue + more
    requires forall i :: 0 <= i < |more| ==> Known(t, more[i])
    ensures QueueRight(t)
  {
    forall i | 0 <= i < |t.queue| ensures Known(t, t.queue[i]) {
      assert i < |s.queue| ==> Known(s, s.queue[i]);
    }
  }

  lemma StartKeeps(s: State, id: string)
    requires Inv(s)
    ensures Inv(StartBuild(s, id))
  {
    var t := StartBuild(s, id);
    SameJobs(s, t);
    hide JobsRight;
    SameQueue(s, t, if id in s.builds then [] else [Request(Key(id, 1))]);
    hide QueueRight;
    SuccessStays(s, t);
  }

  lemma ReadKeeps(s: State, c: nat, id: string, retry: bool)
    requires Inv(s)
    ensures Inv(ReadBuild(s, c, id, retry))
  {
    var t := ReadBuild(s, c, id, retry);
    SameJobs(s, t);
    hide JobsRight;
    SameQueue(s, t, []);
    hide QueueRight;
    SuccessStays(s, t);
  }

  /** What is complete stays so, and only that makes a build published. */
  lemma SuccessStays(s: State, t: State)
    requires PublishedRight(s)
    requires forall k :: Complete(s, k) ==> Complete(t, k)
    requires forall id :: id in t.builds && t.builds[id].status == Published ==>
               id in s.builds && s.builds[id].status == Published
    ensures PublishedRight(t)
  {
    forall x | x in t.builds && t.builds[x].status == Published ensures exists a: nat :: Complete(t, Key(x, a)) {
      var a: nat :| Complete(s, Key(x, a));
      assert Complete(t, Key(x, a));
    }
  }

  lemma StopJob(s: State, key: Key, k: Key)
    requires k in s.jobs && JobRight(s, k)
    ensures JobRight(s.(jobs := s.jobs[key := Stopped]), k)
  {
    hide Order, Before, InOrder;
  }

  /** The job is saved as stopped, whatever it has come to since it was read. */
  lemma StopKeeps(s: State, c: nat)
    requires JobsRight(s) && c in s.calls && s.calls[c].WillStop? && s.calls[c].key in s.jobs
    ensures JobsRight(ContinueCall(s, c))
  {
    hide JobRight;
    var t, u := ContinueCall(s, c), s.(jobs := s.jobs[s.calls[c].key := Stopped]);
    forall k | k in u.jobs ensures JobRight(u, k) {
      StopJob(s, s.calls[c].key, k);
    }
    SameJobs(u, t);
  }

  function Asked(call: Call): seq<Delivery> { if call.WillPublish? then [Request(call.key)] else [] }

  /** What a step of a call touches. */
  lemma ContinueShape(s: State, c: nat)
    requires c in s.calls
    ensures var t, call := ContinueCall(s, c), s.calls[c];
            && t.worker == s.worker && t.ran == s.ran && t.queue == s.queue + Asked(call)
            && (t.jobs != s.jobs ==> call.WillStop? && t.jobs == s.jobs[call.key := Stopped])
            && (if call.WillCancel? || call.WillRetry?
                then t.builds == s.builds[call.id := t.builds[call.id]] &&
                     t.builds[call.id].status == (if call.WillCancel? then Cancelled else Accepted)
                else t.builds == s.builds)
            && (forall x :: x in t.calls ==> x == c || (x in s.calls && t.calls[x] == s.calls[x]))
  {
  }

  lemma ContinueRows(s: State, c: nat)
    requires QueueRight(s) && WorkerRight(s) && CallsRight(s) && c in s.calls
    ensures QueueRight(ContinueCall(s, c)) && WorkerRight(ContinueCall(s, c))
  {
    assert CallRight(s, s.calls[c]);
    ContinueShape(s, c);
    hide ContinueCall;
    SameQueue(s, ContinueCall(s, c), Asked(s.calls[c]));
  }

  lemma ContinueCalls(s: State, c: nat)
    requires CallsRight(s) && c in s.calls
    ensures CallsRight(ContinueCall(s, c))
  {
    assert CallRight(s, s.calls[c]);
    var t := ContinueCall(s, c);
    forall x | x in t.calls ensures CallRight(t, t.calls[x]) {
      assert x != c ==> CallRight(s, s.calls[x]);
    }
  }

  lemma ContinueKeeps(s: State, c: nat)
    requires Inv(s)
    ensures Inv(ContinueCall(s, c))
  {
    if c in s.calls {
      var t := ContinueCall(s, c);
      ContinueShape(s, c);
      ContinueRows(s, c);
      ContinueCalls(s, c);
      assert CallRight(s, s.calls[c]);
      if s.calls[c].WillStop? {
        StopKeeps(s, c);
      } else {
        SameJobs(s, t);
      }
      hide ContinueCall, JobsRight, QueueRight;
      SuccessStays(s, t);
    }
  }

  lemma CallKnown(s: State, c: nat)
    requires Inv(s) && c in s.calls
    ensures CallRight(s, s.calls[c])
  {
  }

  // --- Steps of the worker --------------------------------------------------------------

  lemma WithoutKeeps(s: State, i: nat)
    requires Inv(s) && i < |s.queue|
    ensures Inv(s.(queue := Without(s.queue, i))) && Known(s, s.queue[i])
  {
    var t := s.(queue := Without(s.queue, i));
    SameJobs(s, t);
    hide JobsRight;
    forall j | 0 <= j < |t.queue| ensures Known(t, t.queue[j]) {
      assert Known(s, s.queue[if j < i then j else j + 1]);
    }
    assert Known(s, s.queue[i]);
    hide QueueRight;
    SuccessStays(s, t);
  }

  lemma TakeJob(s: State, d: Delivery, k: Key)
    requires s.worker.Idle? && k in s.jobs && JobRight(s, k)
    ensures k in Take(s, d).jobs && JobRight(Take(s, d), k)
  {
    assert forall st :: Before(st) + [] == Before(st);
    hide InOrder, Order, Before;
  }

  lemma TakeKeeps(s: State, d: Delivery)
    requires Inv(s) && s.worker.Idle? && Known(s, d)
    ensures Inv(Take(s, d))
  {
    var t := Take(s, d);
    hide JobRight;
    forall k | k in t.jobs ensures JobRight(t, k) {
      TakeJob(s, d, k);
    }
    assert JobsRight(t);
    TakeComplete(s, d);
    hide JobsRight;
    TakeRows(s, d);
    hide QueueRight, Take;
    SuccessStays(s, t);
  }

  /** A job that is complete is not taken up again. */
  lemma TakeComplete(s: State, d: Delivery)
    requires JobsRight(s) && s.worker.Idle?
    ensures forall k :: Complete(Take(s, d), k) <==> Complete(s, k)
  {
    StagesInOrder();
    assert d.key in s.jobs ==> JobRight(s, d.key);
    hide InOrder, Before;
  }

  lemma TakeRows(s: State, d: Delivery)
    requires QueueRight(s) && CallsRight(s) && s.worker.Idle? && Known(s, d)
    ensures var t := Take(s, d);
            && QueueRight(t) && CallsRight(t) && WorkerRight(t)
            && t.jobs == s.jobs && t.builds == s.builds && t.calls == s.calls && t.ran == s.ran
  {
    var t := Take(s, d);
    var resumed := d.Request? && d.key in s.jobs && !Settled(s.builds[d.key.build]);
    var more := if resumed then [Progress(d.key)] else [];
    assert t.queue == s.queue + more;
    SameQueue(s, t, more);
  }

  lemma PrepareJobs(s: State, k: Key)
    requires JobsRight(s) && WorkerRight(s) && s.worker.Preparing?
    requires k in Advance(s).jobs
    ensures JobRight(Advance(s), k)
  {
    StagesInOrder();
    hide InOrder, Order, Before;
    assert k in s.jobs ==> JobRight(s, k);
  }

  lemma StageJobs(s: State, k: Key)
    requires JobsRight(s) && WorkerRight(s) && s.worker.Starting?
    requires k in Advance(s).jobs
    ensures JobRight(Advance(s), k)
  {
    StagesInOrder();
    assert forall st :: Before(st) + [] == Before(st);
    hide InOrder, Order, Before;
    assert k in s.jobs && JobRight(s, k);
  }

  lemma FinishJobs(s: State, k: Key)
    requires JobsRight(s) && WorkerRight(s) && s.worker.Busy?
    requires k in Advance(s).jobs
    ensures JobRight(Advance(s), k)
  {
    StagesInOrder();
    hide InOrder, Order, Before;
    assert k in s.jobs && JobRight(s, k);
  }

  function Sent(s: State): seq<Delivery> {
    match s.worker
    case Preparing(key, _) => [Progress(key)]
    case Busy(key, _, st) => if Next(st).Some? then [Progress(key), Progress(key)] else [Progress(key)]
    case _ => []
  }

  /** What the worker's save touches: its own build, its own job, the queue's end. */
  lemma AdvanceShape(s: State)
    requires !s.worker.Idle?
    ensures var t, key := Advance(s), s.worker.key;
            && key.build in t.builds && t.builds == s.builds[key.build := t.builds[key.build]]
            && key in t.jobs && t.jobs == s.jobs[key := t.jobs[key]]
            && t.queue == s.queue + Sent(s) && t.calls == s.calls && (forall k :: k in t.ran ==> k in s.ran || k == key)
            && (t.builds[key.build].status == Published <==> t.jobs[key] == Succeeded)
            && (t.builds[key.build].status != Published ==> t.jobs[key].At? && !Settled(t.builds[key.build]))
            && (t.worker.Idle? || (t.worker.Busy? && t.worker.key == key && t.worker.build == t.builds[key.build]))
  {
  }

  lemma AdvanceJob(s: State, k: Key)
    requires JobsRight(s) && WorkerRight(s) && !s.worker.Idle? && k in Advance(s).jobs
    ensures JobRight(Advance(s), k)
  {
    hide JobsRight, JobRight, WorkerRight, Advance;
    match s.worker
    case Preparing(_, _) => PrepareJobs(s, k);
    case Starting(_, _, _) => StageJobs(s, k);
    case Busy(_, _, _) => FinishJobs(s, k);
  }

  lemma AdvanceJobs(s: State)
    requires JobsRight(s) && WorkerRight(s) && !s.worker.Idle?
    ensures JobsRight(Advance(s))
  {
    AdvanceShape(s);
    hide JobRight, Advance, Sent;
    forall k | k in Advance(s).jobs ensures JobRight(Advance(s), k) {
      AdvanceJob(s, k);
    }
  }

  lemma AdvanceRows(s: State)
    requires QueueRight(s) && WorkerRight(s) && CallsRight(s) && !s.worker.Idle?
    ensures QueueRight(Advance(s)) && WorkerRight(Advance(s)) && CallsRight(Advance(s))
  {
    AdvanceShape(s);
    hide Advance;
    assert forall i :: 0 <= i < |Sent(s)| ==> Sent(s)[i] == Progress(s.worker.key);
    hide Sent;
    SameQueue(s, Advance(s), Sent(s));
    hide QueueRight;
  }

  lemma AdvanceKeeps(s: State)
    requires Inv(s)
    ensures Inv(Advance(s))
  {
    hide JobsRight, PublishedRight, QueueRight, WorkerRight, CallsRight;
    if !s.worker.Idle? {
      AdvanceJobs(s);
      AdvanceRows(s);
      AdvancePublished(s);
    } else {
      AdvanceIdle(s);
    }
  }

  lemma AdvanceIdle(s: State)
    requires s.worker.Idle?
    ensures Advance(s) == s
  {
  }

  /** What the worker has in hand is not complete, and becomes so when it is published. */
  lemma AdvanceComplete(s: State)
    requires JobsRight(s) && WorkerRight(s) && !s.worker.Idle?
    ensures !Complete(s, s.worker.key)
    ensures Complete(Advance(s), s.worker.key) <==>
            Advance(s).builds[s.worker.key.build].status == Published
    ensures forall k :: k != s.worker.key ==> (Complete(Advance(s), k) <==> Complete(s, k))
  {
    var key := s.worker.key;
    StagesInOrder();
    assert key in s.jobs ==> JobRight(s, key);
    assert key !in s.jobs ==> RanBy(s, key) == [];
  }

  lemma AdvancePublished(s: State)
    requires Inv(s) && !s.worker.Idle?
    ensures PublishedRight(Advance(s))
  {
    AdvanceShape(s);
    AdvanceComplete(s);
    var t, key := Advance(s), s.worker.key;
    hide Advance, JobsRight, QueueRight, Complete;
    forall x | x in t.builds && t.builds[x].status == Published ensures exists a: nat :: Complete(t, Key(x, a)) {
      if x == key.build {
        assert Key(x, key.attempt) == key && Complete(t, key);
      } else {
        var a: nat :| Complete(s, Key(x, a));
        assert Complete(t, Key(x, a));
      }
    }
  }

  lemma StepKeeps(s: State, step: Step)
    requires Inv(s)
    ensures Inv(Apply(s, step))
  {
    hide Inv, StartBuild, ReadBuild, ContinueCall, Take, Advance, Without;
    match step
    case Start(id) => StartKeeps(s, id);
    case ReadCancel(c, id) => ReadKeeps(s, c, id, false);
    case ReadRetry(c, id) => ReadKeeps(s, c, id, true);
    case Continue(c) => ContinueKeeps(s, c);
    case Begin(i) =>
      if s.worker.Idle? && i < |s.queue| {
        WithoutKeeps(s, i);
        TakeKeeps(s.(queue := Without(s.queue, i)), s.queue[i]);
      }
    case Proceed => AdvanceKeeps(s);
  }

  lemma {:induction false} RunKeeps(s: State, steps: seq<Step>)
    requires Inv(s)
    ensures Inv(Run(s, steps))
  {
    hide Inv, Apply;
    if steps != [] {
      RunKeeps(s, steps[..|steps| - 1]);
      StepKeeps(Run(s, steps[..|steps| - 1]), steps[|steps| - 1]);
    }
  }

  lemma EmptyHolds()
    ensures Inv(EMPTY)
  {
  }
}
