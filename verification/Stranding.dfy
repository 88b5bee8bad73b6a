/**
  What being left behind means for a deployment request, that the conditions on the
  callers are exact, and runs in which each of them fails.
 */
module Stranding {
  import opened Common
  import opened Requests
  import L = Lifecycle
  import Bus

  ghost predicate Stranded(s: State, d: string) {
    Waits(s, d) && !OnTheBus(s, d) && forall p :: !Publishing(s, d, p)
  }

  predicate AllMarks(steps: seq<Step>) { forall k :: 0 <= k < |steps| ==> steps[k].MarkDone? }

  lemma MarkKeepsWaiting(s: State, p: nat, d: string)
    ensures Waits(Apply(s, MarkDone(p)), d) <==> Waits(s, d)
    ensures Exclusive(s) ==> Exclusive(Apply(s, MarkDone(p)))
    ensures Exclusive(s) && Waits(s, d) && Covered(s, d) ==> Covered(Apply(s, MarkDone(p)), d)
  {
    StepExclusiveIf(s, p);
    if Exclusive(s) && Waits(s, d) && Covered(s, d) && Finished(At(s, p)) {
      hide Covered;
      MarkCovers(s, p, At(s, p).id, if At(s, p).ToComplete? then Bus.Completed else Bus.Failed, d);
    }
  }

  lemma StepExclusiveIf(s: State, p: nat)
    ensures Exclusive(s) ==> Exclusive(Apply(s, MarkDone(p)))
  {
    if Exclusive(s) {
      StepExclusive(s, MarkDone(p));
    }
  }

  lemma {:induction false} MarksKeepCover(s: State, steps: seq<Step>, d: string)
    requires Exclusive(s) && AllMarks(steps)
    ensures Exclusive(Run(s, steps)) && (Waits(Run(s, steps), d) <==> Waits(s, d))
    ensures Waits(s, d) && Covered(s, d) ==> Covered(Run(s, steps), d)
  {
    if steps != [] {
      MarksKeepCover(s, steps[..|steps| - 1], d);
      hide Exclusive, Covered, Apply, Waits;
      MarkKeepsWaiting(Run(s, steps[..|steps| - 1]), steps[|steps| - 1].p, d);
    }
  }

  lemma {:induction false} RunCons(s: State, step: Step, rest: seq<Step>)
    ensures Run(s, [step] + rest) == Run(Apply(s, step), rest)
  {
    hide Apply;
    if rest == [] {
      assert ([step] + rest)[..0] == [];
    } else {
      assert ([step] + rest)[..|rest|] == [step] + rest[..|rest| - 1];
      RunCons(s, step, rest[..|rest| - 1]);
    }
  }

  function DoneCalls(s: State): set<nat> { set p | p in s.calls && Finished(s.calls[p]) }

  /** A deployment nobody carries: once the calls that have finished with it mark
      their deliveries, it is stranded. */
  lemma {:induction false} UncarriedStrands(s: State, d: string) returns (marks: seq<Step>)
    requires Exclusive(s) && Waits(s, d) && !Covered(s, d)
    ensures AllMarks(marks) && Stranded(Run(s, marks), d)
    decreases |DoneCalls(s)|
  {
    if OnTheBus(s, d) {
      var p, i := FinishedHolder(s, d);
      var t := Apply(s, MarkDone(p));
      MarkKeepsWaiting(s, p, d);
      StillUncarried(s, p, i, d);
      DoneShrinks(s, p);
      hide Apply, Covered, Exclusive, Waits, Stranded, OnTheBus;
      var rest := UncarriedStrands(t, d);
      marks := [MarkDone(p)] + rest;
      RunCons(s, MarkDone(p), rest);
    } else {
      marks := [];
      assert forall p :: !Publishing(s, d, p);
    }
  }

  lemma FinishedHolder(s: State, d: string) returns (p: nat, i: nat)
    requires OnTheBus(s, d) && !Covered(s, d)
    ensures p in s.calls && Held(s.calls[p]) == Some(i) && Finished(s.calls[p])
  {
    i :| 0 <= i < |s.requests| && s.requests[i].deployment == d &&
         s.requests[i].status in {Bus.Pending, Bus.Processing};
    assert !Looking(s, d, i);
    p :| p in s.calls && Held(s.calls[p]) == Some(i) && Finished(s.calls[p]);
  }

  lemma DoneShrinks(s: State, p: nat)
    requires p in s.calls && Finished(s.calls[p])
    ensures |DoneCalls(Apply(s, MarkDone(p)))| < |DoneCalls(s)|
  {
    assert DoneCalls(Apply(s, MarkDone(p))) == DoneCalls(s) - {p};
  }

  lemma StillUncarried(s: State, p: nat, i: nat, d: string)
    requires Exclusive(s) && !Covered(s, d)
    requires p in s.calls && Held(s.calls[p]) == Some(i) && Finished(s.calls[p])
    ensures !Covered(Apply(s, MarkDone(p)), d)
  {
    var t := Apply(s, MarkDone(p));
    assert i < |s.requests| && t.requests[i].status in {Bus.Completed, Bus.Failed};
    forall j ensures !Looking(t, d, j) {
      assert !Looking(s, d, j);
      if 0 <= j < |s.requests| && j != i && s.requests[j].deployment == d && s.requests[j].status == Bus.Processing {
        var q :| q in s.calls && Held(s.calls[q]) == Some(j) && Finished(s.calls[q]);
        assert q != p && t.calls[q] == s.calls[q];
      }
    }
    forall q ensures !Publishing(t, d, q) {
      assert !Publishing(s, d, q);
    }
  }

  /** So being carried is exactly what keeps a waiting deployment from being stranded
      by what is already under way. */
  lemma CarriedIffNeverStranded(s: State, d: string)
    requires Exclusive(s) && Waits(s, d)
    ensures Covered(s, d) <==> forall marks :: AllMarks(marks) ==> !Stranded(Run(s, marks), d)
  {
    if Covered(s, d) {
      forall marks | AllMarks(marks) ensures !Stranded(Run(s, marks), d) {
        MarksKeepCover(s, marks, d);
        CoveredIsNotStranded(Run(s, marks), d);
      }
    } else {
      var marks := UncarriedStrands(s, d);
    }
  }

  lemma CoveredIsNotStranded(s: State, d: string)
    requires Covered(s, d)
    ensures !Stranded(s, d)
  {
    if i :| Looking(s, d, i) {
      assert OnTheBus(s, d);
    }
  }

  lemma UnsafeUncarries(s: State, step: Step, d: string)
    requires !Safe(s, step) && (step.FinishSave? || step.Crash?) && d == At(s, step.p).deployment
    ensures Waits(Apply(s, step), d) && !Covered(Apply(s, step), d)
  {
    var t := Apply(s, step);
    assert t.requests == s.requests && t.calls == s.calls[step.p := Idle] && step.p in s.calls;
    forall j ensures !Looking(t, d, j) {
      assert !Looking(s, d, j) by {
        if step.FinishSave? { assert !Covered(s, d); }
      }
      LookingBefore(s, step.p, d, j);
      assert Looking(t, d, j) <==> Looking(Go(s, step.p, Idle), d, j);
    }
    forall q ensures !Publishing(t, d, q) {
      assert Publishing(t, d, q) ==> q != step.p && Publishing(s, d, q);
    }
  }

  /** A call that holds nothing leaves no delivery uncarried when it ends. */
  lemma LookingBefore(s: State, p: nat, d: string, i: int)
    requires Held(At(s, p)).None?
    ensures Looking(Go(s, p, Idle), d, i) <==> Looking(s, d, i)
  {
    var t := Go(s, p, Idle);
    assert forall q :: q in s.calls && q != p ==> t.calls[q] == s.calls[q];
    assert forall q :: q in t.calls && Held(t.calls[q]).Some? ==> q != p && q in s.calls;
  }

  /** An unsafe save or crash strands its deployment, with nothing more than
      marks that were already due. */
  lemma UnsafeStepStrands(s: State, step: Step) returns (marks: seq<Step>)
    requires Inv(s) && !Safe(s, step) && (step.FinishSave? || step.Crash?)
    ensures AllMarks(marks) && Stranded(Run(Apply(s, step), marks), At(s, step.p).deployment)
  {
    var d := At(s, step.p).deployment;
    UnsafeUncarries(s, step, d);
    OneCall(s, step);
    hide Apply, Safe;
    CallExclusive(s, Apply(s, step), step.p);
    marks := UncarriedStrands(Apply(s, step), d);
  }

  // --- A delivery put back under a live handler ------------------------------------------------

  /** Steps that are safe as they come. */
  ghost predicate Safely(s: State, steps: seq<Step>, t: State) { SafeRun(s, steps) && Run(s, steps) == t }

  lemma SafelyOne(s: State, step: Step)
    requires Safe(s, step)
    ensures Safely(s, [step], Apply(s, step))
  {
    hide Apply, Safe;
    assert [step][..0] == [];
  }

  lemma SafelyJoin(s: State, a: seq<Step>, m: State, b: seq<Step>, t: State)
    requires Safely(s, a, m) && Safely(m, b, t)
    ensures Safely(s, a + b, t)
  {
    RunConcat(s, a, b);
    hide Run, Safe;
    forall k | 0 <= k < |a + b| ensures Safe(Run(s, (a + b)[..k]), (a + b)[k]) {
      if k < |a| {
        assert (a + b)[..k] == a[..k];
      } else {
        assert (a + b)[..k] == a + b[..k - |a|];
        RunConcat(s, a, b[..k - |a|]);
      }
    }
  }

  /** d is there, and delivery id asks for it. */
  predicate Asks(s: State, id: nat, d: string) {
    id < |s.requests| && s.requests[id].deployment == d && d in s.rows && d !in s.gone
  }

  predicate Holds(s: State, p: nat, id: nat) { Held(At(s, p)) == Some(id) }

  /** p has nothing left but to mark the delivery; q has read the row as PENDING and
      relies on the same delivery. */
  predicate Armed(s: State, id: nat, d: string, p: nat, q: nat) {
    p != q && Asks(s, id, d) && Holds(s, p, id) && Finished(At(s, p)) && At(s, q) == SawPending(id)
  }

  predicate Others(s: State, p: nat, q: nat) { forall r :: r in s.calls && r != p && r != q ==> s.calls[r].Idle? }

  function Busy(s: State, p: nat, q: nat): set<nat> { set r | r in s.calls && r != p && r != q && !s.calls[r].Idle? }

  function Open(s: State, id: nat, d: string): set<int> {
    set j | 0 <= j < |s.requests| && j != id && s.requests[j].deployment == d &&
            s.requests[j].status in {Bus.Pending, Bus.Processing}
  }

  /** All other calls publish what they owe, or end. */
  lemma {:induction false} OthersEnd(s: State, id: nat, d: string, p: nat, q: nat)
    returns (steps: seq<Step>, t: State)
    requires Armed(s, id, d, p, q)
    ensures Safely(s, steps, t) && Armed(t, id, d, p, q) && Others(t, p, q)
    decreases |Busy(s, p, q)|
  {
    if r :| r in Busy(s, p, q) {
      var step := if At(s, r).OwesPublish? then PublishRequest(r) else Crash(r);
      var m := Apply(s, step);
      assert m.calls == s.calls[r := Idle];
      assert Busy(m, p, q) == Busy(s, p, q) - {r};
      assert Armed(m, id, d, p, q);
      SafelyOne(s, step);
      hide Apply, Armed, Safe;
      steps, t := OthersEnd(m, id, d, p, q);
      SafelyJoin(s, [step], m, steps, t);
      steps := [step] + steps;
    } else {
      steps, t := [], s;
      assert forall r :: r in s.calls && r != p && r != q && !s.calls[r].Idle? ==> r in Busy(s, p, q);
    }
  }

  /** An abandoned delivery goes back to pending once it is old enough. */
  lemma PutsBack(s: State, j: nat, id: nat, d: string, p: nat, q: nat) returns (steps: seq<Step>, t: State)
    requires Armed(s, id, d, p, q) && Others(s, p, q) && j in Open(s, id, d)
    ensures Safely(s, steps, t) && Armed(t, id, d, p, q) && Others(t, p, q)
    ensures Open(t, id, d) == Open(s, id, d) && t.requests[j].status == Bus.Pending
  {
    if s.requests[j].status == Bus.Pending {
      return [], s;
    }
    var wait := Max(0, s.requests[j].updatedAt - s.now);
    var m := Apply(s, Tick(wait));
    t := Apply(m, RequeueStale(j, 0));
    SafelyOne(s, Tick(wait));
    assert HeldByNobody(m, j);
    SafelyOne(m, RequeueStale(j, 0));
    SafelyJoin(s, [Tick(wait)], m, [RequeueStale(j, 0)], t);
    hide Safely;
    steps := [Tick(wait)] + [RequeueStale(j, 0)];
    assert t.requests == s.requests[j := t.requests[j]];
  }

  predicate Plain(step: Step) { !step.RequeueStale? && !step.FinishSave? && !step.Crash? }

  lemma PlainIsSafe(s: State, steps: seq<Step>)
    requires forall k :: 0 <= k < |steps| ==> Plain(steps[k])
    ensures Safely(s, steps, Run(s, steps))
  {
    hide Run;
  }

  lemma TakenAndRead(s: State, r: nat, j: nat, d: string)
    requires Asks(s, j, d) && At(s, r).Idle? && s.requests[j].status == Bus.Pending
    ensures Run(s, [Claim(r, j), ReadRow(r)]) ==
            s.(requests := s.requests[j := Request(d, Bus.Processing, s.now)],
               calls := s.calls[r := if s.rows[d] == L.Pending then SawPending(j) else ToComplete(j)])
  {
    Run2(s, Claim(r, j), ReadRow(r));
    hide Run;
    var t := Apply(s, Claim(r, j));
    assert t == s.(requests := s.requests[j := Request(d, Bus.Processing, s.now)], calls := s.calls[r := Holding(j)]);
    assert Target(t, r) == d;
  }

  lemma Places(s: State, r: nat, j: nat, d: string)
    requires Asks(s, j, d) && At(s, r) == SawPending(j)
    ensures Apply(s, SaveScheduled(r)) == Go(SetRow(s, d, L.Scheduled), r, ToComplete(j))
  {
  }

  lemma Reads(s: State, r: nat, j: nat, d: string)
    requires Asks(s, j, d) && At(s, r) == Holding(j) && s.rows[d] == L.Pending
    ensures Apply(s, ReadRow(r)) == Go(s, r, SawPending(j))
  {
  }

  lemma Marks(s: State, r: nat, j: nat)
    requires At(s, r) == ToComplete(j)
    ensures Apply(s, MarkDone(r)) == Go(SetStatus(s, j, Bus.Completed), r, Idle)
  {
  }

  lemma PlacedAndMarked(s: State, r: nat, j: nat, d: string)
    requires Asks(s, j, d) && At(s, r) == SawPending(j)
    ensures Run(s, [SaveScheduled(r), MarkDone(r)]) ==
            s.(rows := s.rows[d := L.Scheduled], requests := s.requests[j := Request(d, Bus.Completed, s.now)],
               calls := s.calls[r := Idle])
  {
    Run2(s, SaveScheduled(r), MarkDone(r));
    hide Run, Apply;
    Places(s, r, j, d);
    var t := Go(SetRow(s, d, L.Scheduled), r, ToComplete(j));
    Marks(t, r, j);
  }

  lemma Marked(s: State, r: nat, j: nat, d: string)
    requires Asks(s, j, d) && At(s, r) == ToComplete(j)
    ensures Run(s, [MarkDone(r)]) ==
            s.(requests := s.requests[j := Request(d, Bus.Completed, s.now)], calls := s.calls[r := Idle])
  {
    Run1(s, MarkDone(r));
    hide Run, Apply;
    Marks(s, r, j);
  }

  lemma TakenAndFinished(s: State, r: nat, j: nat, d: string) returns (steps: seq<Step>, t: State)
    requires Asks(s, j, d) && At(s, r).Idle? && s.requests[j].status == Bus.Pending
    ensures Safely(s, steps, t)
    ensures t.requests == s.requests[j := Request(d, Bus.Completed, s.now)] && t.calls == s.calls[r := Idle]
    ensures t.gone == s.gone && d in t.rows
  {
    hide Run, Apply, Safe;
    TakenAndRead(s, r, j, d);
    var first := [Claim(r, j), ReadRow(r)];
    var m := Run(s, first);
    var more := if s.rows[d] == L.Pending then [SaveScheduled(r), MarkDone(r)] else [MarkDone(r)];
    if s.rows[d] == L.Pending {
      PlacedAndMarked(m, r, j, d);
    } else {
      Marked(m, r, j, d);
    }
    RunConcat(s, first, more);
    steps := first + more;
    t := Run(m, more);
    PlainIsSafe(s, steps);
  }

  /** Another worker takes a pending delivery and finishes with it. */
  lemma WorkedOff(s: State, j: nat, id: nat, d: string, p: nat, q: nat) returns (steps: seq<Step>, t: State)
    requires Armed(s, id, d, p, q) && Others(s, p, q) && j in Open(s, id, d) && s.requests[j].status == Bus.Pending
    ensures Safely(s, steps, t) && Armed(t, id, d, p, q) && Others(t, p, q)
    ensures Open(t, id, d) == Open(s, id, d) - {j}
  {
    hide Safely;
    steps, t := TakenAndFinished(s, p + q + 1, j, d);
  }

  lemma {:induction false} OpenEnd(s: State, id: nat, d: string, p: nat, q: nat) returns (steps: seq<Step>, t: State)
    requires Armed(s, id, d, p, q) && Others(s, p, q)
    ensures Safely(s, steps, t) && Armed(t, id, d, p, q) && Others(t, p, q) && Open(t, id, d) == {}
    decreases |Open(s, id, d)|
  {
    if j: nat :| j in Open(s, id, d) {
      var first, m := PutsBack(s, j, id, d, p, q);
      var second, n := WorkedOff(m, j, id, d, p, q);
      hide Armed, Others, Open, Safely;
      SafelyJoin(s, first, m, second, n);
      steps, t := OpenEnd(n, id, d, p, q);
      SafelyJoin(s, first + second, n, steps, t);
      steps := first + second + steps;
    } else {
      steps, t := [], s;
      assert forall j :: j in Open(s, id, d) ==> j >= 0;
    }
  }

  /** q saves PENDING and asks for a retry; then p marks the delivery. */
  lemma LastMark(s: State, id: nat, d: string, p: nat, q: nat) returns (steps: seq<Step>, t: State)
    requires Armed(s, id, d, p, q) && Others(s, p, q) && Open(s, id, d) == {}
    ensures Safely(s, steps, t) && Stranded(t, d)
  {
    steps := [SaveUnplaced(q, false), MarkRetry(q), MarkDone(p)];
    t := Run(s, steps);
    PlainIsSafe(s, steps);
    LastThree(s, id, d, p, q);
    hide Run, Safely;
    assert !OnTheBus(t, d) by {
      assert forall j :: 0 <= j < |s.requests| && j != id && s.requests[j].deployment == d ==>
        j in Open(s, id, d) || s.requests[j].status !in {Bus.Pending, Bus.Processing};
    }
  }

  lemma LastThree(s: State, id: nat, d: string, p: nat, q: nat)
    requires Armed(s, id, d, p, q)
    ensures var t := Run(s, [SaveUnplaced(q, false), MarkRetry(q), MarkDone(p)]);
            && t.rows == s.rows[d := L.Pending] && t.gone == s.gone && t.calls == s.calls[q := Idle][p := Idle]
            && exists status :: t.requests == s.requests[id := Request(d, status, s.now)] &&
                                status in {Bus.Completed, Bus.Failed}
  {
    Run3(s, SaveUnplaced(q, false), MarkRetry(q), MarkDone(p));
    hide Run;
    var s1 := Apply(s, SaveUnplaced(q, false));
    assert s1 == s.(rows := s.rows[d := L.Pending], calls := s.calls[q := SavedWaiting(id)]);
    var s2 := Apply(s1, MarkRetry(q));
    assert s2 == s1.(requests := s.requests[id := Request(d, Bus.Pending, s.now)], calls := s.calls[q := Idle]);
  }

  lemma {:induction false} Above(numbers: set<nat>) returns (n: nat)
    ensures forall m :: m in numbers ==> m < n
  {
    n := 0;
    if m :| m in numbers {
      var rest := Above(numbers - {m});
      n := Max(rest, m + 1);
      assert forall x :: x in numbers ==> x == m || x in numbers - {m};
    }
  }

  /** The delivery is pending again and p still holds it. */
  predicate PutBackUnder(s: State, id: nat, d: string, p: nat) {
    Asks(s, id, d) && s.requests[id].status == Bus.Pending && Holds(s, p, id)
  }

  /** If d no longer waits, a requeue makes it wait. */
  lemma MadeToWait(s: State, id: nat, d: string, p: nat) returns (steps: seq<Step>, t: State)
    requires PutBackUnder(s, id, d, p)
    ensures Safely(s, steps, t) && PutBackUnder(t, id, d, p) && t.rows[d] == L.Pending
  {
    if s.rows[d] == L.Pending {
      return [], s;
    }
    var r := Above(s.calls.Keys);
    steps := [BeginRequeue(r, d), FinishRequeue(r), PublishRequest(r)];
    t := Run(s, steps);
    PlainIsSafe(s, steps);
    Run3(s, BeginRequeue(r, d), FinishRequeue(r), PublishRequest(r));
    hide Run, Safely;
    var s2 := Apply(Apply(s, BeginRequeue(r, d)), FinishRequeue(r));
    assert s2.rows == s.rows[d := L.Pending] && s2.requests == s.requests && s2.calls == s.calls[r := OwesPublish(d)];
  }

  /** A call about to ask for a retry does so after another has claimed the delivery:
      now that one holds it while it is pending. */
  lemma HandedOn(s: State, id: nat, d: string, p: nat) returns (steps: seq<Step>, t: State, h: nat)
    requires PutBackUnder(s, id, d, p) && s.rows[d] == L.Pending
    ensures Safely(s, steps, t) && PutBackUnder(t, id, d, h) && t.rows[d] == L.Pending && !At(t, h).SavedWaiting?
  {
    if !At(s, p).SavedWaiting? {
      return [], s, p;
    }
    h := Above(s.calls.Keys);
    steps := [Claim(h, id), MarkRetry(p)];
    t := Run(s, steps);
    PlainIsSafe(s, steps);
    Run2(s, Claim(h, id), MarkRetry(p));
    hide Run, Safely;
  }

  function ToMark(c: Call, p: nat): seq<Step> {
    match c
    case Holding(_) => [ReadRow(p), SaveScheduled(p)]
    case SawPending(_) => [SaveScheduled(p)]
    case GivingUp(_) => [ReadForFailure(p), WriteFailed(p)]
    case WillFail(_) => [WriteFailed(p)]
    case _ => []
  }

  lemma GoesToPlace(s: State, id: nat, d: string, p: nat)
    requires Asks(s, id, d) && s.rows[d] == L.Pending && At(s, p) in {Holding(id), SawPending(id)}
    ensures Run(s, ToMark(At(s, p), p)) == Go(SetRow(s, d, L.Scheduled), p, ToComplete(id))
  {
    hide Run, Apply;
    if At(s, p).Holding? {
      Run2(s, ReadRow(p), SaveScheduled(p));
      Reads(s, p, id, d);
      Places(Go(s, p, SawPending(id)), p, id, d);
    } else {
      Run1(s, SaveScheduled(p));
      Places(s, p, id, d);
    }
  }

  lemma GoesToFail(s: State, id: nat, d: string, p: nat)
    requires Asks(s, id, d) && s.rows[d] == L.Pending && At(s, p) in {GivingUp(id), WillFail(id)}
    ensures Run(s, ToMark(At(s, p), p)) == Go(SetRow(s, d, L.Failed), p, ToFail(id))
  {
    hide Run, Apply;
    WritesFailed(s, p, id, d);
    if At(s, p).GivingUp? {
      Run2(s, ReadForFailure(p), WriteFailed(p));
      ReadsForFailure(s, p);
    } else {
      Run1(s, WriteFailed(p));
      assert Go(s, p, WillFail(id)) == s;
    }
  }

  /** A call that holds the delivery of a waiting deployment goes on to its mark. */
  lemma BroughtToMark(s: State, id: nat, d: string, p: nat, q: nat)
    requires p != q && Asks(s, id, d) && s.rows[d] == L.Pending && Holds(s, p, id) && At(s, q) == SawPending(id)
    requires !At(s, p).SavedWaiting?
    ensures Armed(Run(s, ToMark(At(s, p), p)), id, d, p, q)
  {
    if At(s, p) in {Holding(id), SawPending(id)} {
      GoesToPlace(s, id, d, p);
    } else if At(s, p) in {GivingUp(id), WillFail(id)} {
      GoesToFail(s, id, d, p);
    } else {
      Run0(s);
    }
    hide Run;
  }

  lemma Run0(s: State)
    ensures Run(s, []) == s
  {
  }

  lemma Run1(s: State, step: Step)
    ensures Run(s, [step]) == Apply(s, step)
  {
    hide Apply;
    assert [step][..0] == [];
  }

  lemma ArmsUnder(s: State, id: nat, d: string, p: nat) returns (steps: seq<Step>, t: State, q: nat)
    requires PutBackUnder(s, id, d, p) && s.rows[d] == L.Pending && !At(s, p).SavedWaiting?
    ensures Safely(s, steps, t) && Armed(t, id, d, p, q)
  {
    q := Above(s.calls.Keys);
    var first := [Claim(q, id), ReadRow(q)];
    TakenAndRead(s, q, id, d);
    var m := Run(s, first);
    BroughtToMark(m, id, d, p, q);
    var more := ToMark(At(m, p), p);
    RunConcat(s, first, more);
    steps, t := first + more, Run(m, more);
    hide Run, Armed;
    PlainIsSafe(s, steps);
  }

  /** However many other calls and deliveries there are, safe steps alone lead from a
      delivery put back under a live handler to a stranded deployment. */
  lemma PutBackStrands(s: State, id: nat, d: string, p: nat) returns (steps: seq<Step>, t: State)
    requires PutBackUnder(s, id, d, p)
    ensures Safely(s, steps, t) && Stranded(t, d)
  {
    hide Safely, PutBackUnder, Armed, Others, Open, Stranded;
    var a, s1 := MadeToWait(s, id, d, p);
    var b, s2, h := HandedOn(s1, id, d, p);
    var c, s3, q := ArmsUnder(s2, id, d, h);
    var e, s4 := OthersEnd(s3, id, d, h, q);
    var f, s5 := OpenEnd(s4, id, d, h, q);
    var g, s6 := LastMark(s5, id, d, h, q);
    SafelyJoin(s, a, s1, b, s2);
    SafelyJoin(s, a + b, s2, c, s3);
    SafelyJoin(s, a + b + c, s3, e, s4);
    SafelyJoin(s, a + b + c + e, s4, f, s5);
    SafelyJoin(s, a + b + c + e + f, s5, g, s6);
    steps, t := a + b + c + e + f + g, s6;
  }

  // --- The conditions are exact -----------------------------------------------------------------

  /** Safe steps from here on can strand d. */
  ghost predicate CanStrand(s: State, d: string) {
    exists steps :: SafeRun(s, steps) && Stranded(Run(s, steps), d)
  }

  lemma UnsafeRequeueStrands(s: State, id: nat, stale: nat)
    requires Inv(s) && !Safe(s, RequeueStale(id, stale))
    ensures CanStrand(Apply(s, RequeueStale(id, stale)), s.requests[id].deployment)
  {
    var t, d := Apply(s, RequeueStale(id, stale)), s.requests[id].deployment;
    var p :| p in s.calls && Held(s.calls[p]) == Some(id);
    assert PutBackUnder(t, id, d, p);
    hide Inv, Safe, Apply;
    var steps, u := PutBackStrands(t, id, d, p);
  }

  /** A step keeps the invariant if and only if it is safe. */
  lemma StepKeepsIff(s: State, step: Step)
    requires Inv(s)
    ensures Inv(Apply(s, step)) <==> Safe(s, step)
  {
    if Safe(s, step) {
      StepKeeps(s, step);
    } else if step.RequeueStale? {
      var p :| p in s.calls && Held(s.calls[p]) == Some(step.id);
      assert !Exclusive(Apply(s, step)) by {
        var t := Apply(s, step);
        assert t.calls[p] == s.calls[p] && t.requests[step.id].status == Bus.Pending;
      }
    } else {
      UnsafeUncarries(s, step, At(s, step.p).deployment);
    }
  }

  /** The conditions are exact, for what they are there for: a step is safe if and only
      if no safe steps after it leave a deployment stranded. */
  lemma SafeIffNeverStrands(s: State, step: Step)
    requires Inv(s)
    ensures Safe(s, step) <==> forall d :: !CanStrand(Apply(s, step), d)
  {
    var t := Apply(s, step);
    if Safe(s, step) {
      StepKeeps(s, step);
      forall steps, d | SafeRun(t, steps) ensures !Stranded(Run(t, steps), d) {
        RunKeeps(t, steps);
        if Waits(Run(t, steps), d) {
          CoveredIsNotStranded(Run(t, steps), d);
        }
      }
    } else if step.RequeueStale? {
      UnsafeRequeueStrands(s, step.id, step.stale);
    } else {
      var marks := UnsafeStepStrands(s, step);
      assert SafeRun(t, marks);
      assert CanStrand(t, At(s, step.p).deployment);
    }
  }

  // --- Runs that strand -----------------------------------------------------------------------

  /** One deployment with one request; callers 1 and 2 at work. */
  function One(d: string, row: L.DState, status: Bus.Status, at: int, first: Call, second: Call, now: int): State {
    State(map[d := row], {}, [Request(d, status, at)], map[0 := Idle, 1 := first, 2 := second], now)
  }

  /** A request created and published; 1 and 2 enter as callers with nothing to do. */
  function Requested(d: string): seq<Step> { [Create(0, d), PublishRequest(0)] + [Crash(1), Crash(2)] }

  lemma RequestedIs(d: string)
    ensures Run(START, Requested(d)) == One(d, L.Pending, Bus.Pending, 0, Idle, Idle, 0)
  {
    var s := Run(START, [Create(0, d), PublishRequest(0)]);
    Run2(START, Create(0, d), PublishRequest(0));
    assert s == State(map[d := L.Pending], {}, [Request(d, Bus.Pending, 0)], map[0 := Idle], 0);
    Run2(s, Crash(1), Crash(2));
    RunConcat(START, [Create(0, d), PublishRequest(0)], [Crash(1), Crash(2)]);
    hide Run;
  }

  /** Call p (1 or 2) is at `c`, the other at `other`. */
  function Two(d: string, row: L.DState, status: Bus.Status, at: int, p: nat, c: Call, other: Call, now: int): State {
    if p == 1 then One(d, row, status, at, c, other, now) else One(d, row, status, at, other, c, now)
  }

  lemma ClaimOne(d: string, at: int, p: nat, other: Call, now: int)
    requires p == 1 || p == 2
    ensures Apply(Two(d, L.Pending, Bus.Pending, at, p, Idle, other, now), Claim(p, 0))
         == Two(d, L.Pending, Bus.Processing, now, p, Holding(0), other, now)
  {
  }

  lemma ReadOne(d: string, at: int, p: nat, other: Call, now: int)
    requires p == 1 || p == 2
    ensures Apply(Two(d, L.Pending, Bus.Processing, at, p, Holding(0), other, now), ReadRow(p))
         == Two(d, L.Pending, Bus.Processing, at, p, SawPending(0), other, now)
  {
  }

  lemma ClaimAndRead(d: string, at: int, p: nat, other: Call, now: int)
    requires p == 1 || p == 2
    ensures Run(Two(d, L.Pending, Bus.Pending, at, p, Idle, other, now), [Claim(p, 0), ReadRow(p)])
         == Two(d, L.Pending, Bus.Processing, now, p, SawPending(0), other, now)
  {
    hide Apply, Two;
    Run2(Two(d, L.Pending, Bus.Pending, at, p, Idle, other, now), Claim(p, 0), ReadRow(p));
    hide Run;
    ClaimOne(d, at, p, other, now);
    ReadOne(d, now, p, other, now);
  }

  lemma PlaceIt(d: string, status: Bus.Status, at: int, other: Call, now: int)
    ensures Apply(One(d, L.Pending, status, at, SawPending(0), other, now), SaveScheduled(1))
         == One(d, L.Scheduled, status, at, ToComplete(0), other, now)
    ensures Apply(One(d, L.Pending, status, at, ToComplete(0), other, now), MarkDone(1))
         == One(d, L.Pending, Bus.Completed, now, Idle, other, now)
    ensures Apply(One(d, L.Scheduled, status, at, ToComplete(0), other, now), MarkDone(1))
         == One(d, L.Scheduled, Bus.Completed, now, Idle, other, now)
  {
  }

  lemma DoneIsStranded(d: string, first: Call, second: Call, at: int, now: int)
    requires !first.OwesPublish? && !second.OwesPublish?
    ensures Stranded(One(d, L.Pending, Bus.Completed, at, first, second, now), d)
  {
  }

  lemma SaveOne(d: string)
    ensures Apply(One(d, L.Pending, Bus.Pending, 0, Idle, Idle, 0), BeginSave(2, d))
         == One(d, L.Pending, Bus.Pending, 0, Idle, WillSave(d, L.Pending), 0)
    ensures Apply(One(d, L.Scheduled, Bus.Completed, 0, Idle, WillSave(d, L.Pending), 0), FinishSave(2))
         == One(d, L.Pending, Bus.Completed, 0, Idle, Idle, 0)
  {
  }

  /** Renaming a deployment, or counting a failed health check, saves back the whole
      row that was read, state included. Read before the worker placed the
      deployment and saved after, it strands it. */
  lemma StaleSaveStrands(d: string)
    ensures Stranded(Run(START, Requested(d) + [BeginSave(2, d)] + [Claim(1, 0), ReadRow(1)] +
                                [SaveScheduled(1), MarkDone(1), FinishSave(2)]), d)
  {
    var save := WillSave(d, L.Pending);
    var s1 := One(d, L.Pending, Bus.Pending, 0, Idle, save, 0);
    var s2 := One(d, L.Pending, Bus.Processing, 0, SawPending(0), save, 0);
    SaveOne(d);
    hide Apply;
    RequestedIs(d);
    var begun := Requested(d) + [BeginSave(2, d)];
    hide Requested, Stranded;
    assert begun[..|begun| - 1] == Requested(d);
    assert Run(START, begun) == s1;
    ClaimAndRead(d, 0, 1, save, 0);
    RunConcat(START, begun, [Claim(1, 0), ReadRow(1)]);
    RunConcat(START, begun + [Claim(1, 0), ReadRow(1)], [SaveScheduled(1), MarkDone(1), FinishSave(2)]);
    Run3(s2, SaveScheduled(1), MarkDone(1), FinishSave(2));
    hide Run;
    PlaceIt(d, Bus.Processing, 0, save, 0);
    DoneIsStranded(d, Idle, Idle, 0, 0);
  }

  /** Saving and publishing are two transactions: a process that dies in between
      leaves a request nobody will ever pick up. */
  lemma CrashBeforePublishStrands(d: string)
    ensures Stranded(Run(START, [Create(0, d), Crash(0)]), d)
  {
    Run2(START, Create(0, d), Crash(0));
    hide Run;
  }

  /** A delivery put back after `stale` seconds while its slow handler is alive: a
      second worker takes it, the first places the deployment, the second finds no
      node and saves PENDING over that, asking for a retry; then the first marks the
      delivery completed. */
  lemma LateMarkStrands(d: string, stale: nat)
    ensures Stranded(Run(START, Requested(d) + [Claim(1, 0), ReadRow(1)] + [Tick(stale), RequeueStale(0, stale)] +
                                [Claim(2, 0), ReadRow(2)] + [SaveScheduled(1), SaveUnplaced(2, false)] +
                                [MarkRetry(2), MarkDone(1)]), d)
  {
    var claim, requeue := [Claim(1, 0), ReadRow(1)], [Tick(stale), RequeueStale(0, stale)];
    var again, saves := [Claim(2, 0), ReadRow(2)], [SaveScheduled(1), SaveUnplaced(2, false)];
    RequestedIs(d);
    ClaimAndRead(d, 0, 1, Idle, 0);
    PutBack(d, stale);
    ClaimAndRead(d, stale, 2, SawPending(0), stale);
    BothSave(d, stale);
    LastMarks(d, stale);
    hide Stranded, Requested, Apply;
    RunConcat(START, Requested(d), claim);
    RunConcat(START, Requested(d) + claim, requeue);
    RunConcat(START, Requested(d) + claim + requeue, again);
    RunConcat(START, Requested(d) + claim + requeue + again, saves);
    RunConcat(START, Requested(d) + claim + requeue + again + saves, [MarkRetry(2), MarkDone(1)]);
    hide Run;
    DoneIsStranded(d, Idle, Idle, stale, stale);
  }

  lemma PutBack(d: string, stale: nat)
    ensures Run(One(d, L.Pending, Bus.Processing, 0, SawPending(0), Idle, 0), [Tick(stale), RequeueStale(0, stale)])
         == One(d, L.Pending, Bus.Pending, stale, SawPending(0), Idle, stale)
  {
    Run2(One(d, L.Pending, Bus.Processing, 0, SawPending(0), Idle, 0), Tick(stale), RequeueStale(0, stale));
    hide Run;
  }

  lemma BothSave(d: string, now: int)
    ensures Run(One(d, L.Pending, Bus.Processing, now, SawPending(0), SawPending(0), now),
                [SaveScheduled(1), SaveUnplaced(2, false)])
         == One(d, L.Pending, Bus.Processing, now, ToComplete(0), SavedWaiting(0), now)
  {
    var s := One(d, L.Pending, Bus.Processing, now, SawPending(0), SawPending(0), now);
    Run2(s, SaveScheduled(1), SaveUnplaced(2, false));
    hide Run;
    PlaceIt(d, Bus.Processing, now, SawPending(0), now);
  }

  lemma LastMarks(d: string, now: int)
    ensures Run(One(d, L.Pending, Bus.Processing, now, ToComplete(0), SavedWaiting(0), now),
                [MarkRetry(2), MarkDone(1)])
         == One(d, L.Pending, Bus.Completed, now, Idle, Idle, now)
  {
    var s := One(d, L.Pending, Bus.Processing, now, ToComplete(0), SavedWaiting(0), now);
    Run2(s, MarkRetry(2), MarkDone(1));
    hide Run;
    PlaceIt(d, Bus.Pending, now, Idle, now);
    assert Apply(s, MarkRetry(2)) == One(d, L.Pending, Bus.Pending, now, ToComplete(0), Idle, now);
  }
}
