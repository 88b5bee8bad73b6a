/**
  Placement as a protocol: control-plane workers that each place one deployment
  at a time (list nodes, snapshot the ledger, rank, then a checked reserve), while
  resumes, releases, requeues, deletions, the reclaim sweep and heartbeats happen
  in between. Every database transaction is one step.
 */
module Placement {
  import opened Common
  import opened Scheduler
  import opened Ledger

  /** Where a worker stands inside _assign_lease; its lock makes it one placement
      at a time. What it read earlier may be stale by now. */
  datatype Progress =
    | Idle
    | Listed(deployment: string, w: Workload, nodes: seq<Node>)
    | Snapshot(deployment: string, w: Workload, nodes: seq<Node>, reserved: map<string, int>)
    | Chosen(deployment: string, w: Workload, node: Node)
    | Admitted(deployment: string, hotkey: string, nodeId: string, gpus: nat)   // a resume that has checked for room

  datatype State = State(
    physical: map<string, nat>,    // GPUs in each machine; never changes
    reported: map<string, int>,    // available_gpus, overwritten by heartbeats
    rows: seq<Row>,
    workers: map<nat, Progress>)

  datatype Step =
    | ListNodes(worker: nat, deployment: string, w: Workload, nodes: seq<Node>)
    | ReadLedger(worker: nat)
    | PickNode(worker: nat)
    | CommitHold(worker: nat)
    | Resume(deployment: string, hotkey: string, node: string, gpus: nat)   // check and write at once
    | CheckResume(worker: nat, deployment: string, hotkey: string, node: string, gpus: nat)
    | WriteResume(worker: nat)
    | Release(deployment: string)       // suspend, fail, terminate, requeue, cleanup
    | Delete(deployments: set<string>)  // delete_workload
    | Reclaim(live: set<string>)        // the sweep over orphaned holds
    | Heartbeat(node: string, available: int)

  /** A listed node is a registered machine as it reported itself at that moment. */
  predicate Registered(s: State, n: Node) {
    n.id in s.physical && n.gpuCount == s.physical[n.id] && n.id in s.reported && n.available == s.reported[n.id]
  }

  function At(s: State, worker: nat): Progress {
    if worker in s.workers then s.workers[worker] else Idle
  }

  function Adjusted(reported: map<string, int>, node: string, delta: int): map<string, int> {
    if node in reported then reported[node := reported[node] + delta] else reported
  }

  function EffectiveNow(s: State, node: string): int
    requires node in s.physical && node in s.reported
  {
    Min(s.reported[node], s.physical[node] - ReservedOn(ByNode(s.rows), node))
  }

  predicate ResumeAdmitted(s: State, node: string, gpus: nat) {
    node in s.physical && node in s.reported && EffectiveNow(s, node) >= gpus
  }

  /** One step; a step that is not possible in `s` leaves it alone. */
  function Apply(s: State, step: Step): State {
    match step
    case ListNodes(p, d, w, nodes) =>
      if At(s, p).Idle? && forall i :: 0 <= i < |nodes| ==> Registered(s, nodes[i])
      then s.(workers := s.workers[p := Listed(d, w, nodes)]) else s
    case ReadLedger(p) =>
      (match At(s, p)
       case Listed(d, w, nodes) => s.(workers := s.workers[p := Snapshot(d, w, nodes, ByNode(s.rows))])
       case _ => s)
    case PickNode(p) =>
      (match At(s, p)
       case Snapshot(d, w, nodes, reserved) =>
         var pick := Choose(w, nodes, reserved);
         s.(workers := s.workers[p := if pick.None? then Idle else Chosen(d, w, pick.value)])
       case _ => s)
    case CommitHold(p) =>
      (match At(s, p)
       case Chosen(d, w, n) =>
         var (rows, ok) := Reserve(s.rows, Row(d, n.hotkey, n.id, w.gpus, Active), Some(n.gpuCount));
         s.(rows := rows,
            reported := if ok then Adjusted(s.reported, n.id, 0 - w.gpus) else s.reported,
            workers := s.workers[p := Idle])
       case _ => s)
    case Resume(d, hotkey, node, gpus) =>
      if ResumeAdmitted(s, node, gpus)
      then s.(rows := Reserve(s.rows, Row(d, hotkey, node, gpus, Active), None).0,
              reported := Adjusted(s.reported, node, 0 - gpus))
      else s
    case CheckResume(p, d, hotkey, node, gpus) =>
      if At(s, p).Idle? && ResumeAdmitted(s, node, gpus)
      then s.(workers := s.workers[p := Admitted(d, hotkey, node, gpus)]) else s
    case WriteResume(p) =>
      (match At(s, p)
       case Admitted(d, hotkey, node, gpus) =>
         s.(rows := Reserve(s.rows, Row(d, hotkey, node, gpus, Active), None).0,
            reported := Adjusted(s.reported, node, 0 - gpus),
            workers := s.workers[p := Idle])
       case _ => s)
    case Release(d) => s.(rows := ReleaseAll(s.rows, {d}))
    case Delete(ds) => s.(rows := DeleteAll(s.rows, ds))
    case Reclaim(live) => s.(rows := ReleaseAll(s.rows, Deployments(s.rows) - live))
    case Heartbeat(n, available) => s.(reported := s.reported[n := available])
  }

  /** A worker lists machines as they are registered at that moment. */
  lemma ListedAsReported(s: State, p: nat, d: string, w: Workload, nodes: seq<Node>)
    requires At(s, p).Idle? && At(Apply(s, ListNodes(p, d, w, nodes)), p).Listed?
    ensures forall i :: 0 <= i < |nodes| ==>
              && nodes[i].id in s.physical && nodes[i].gpuCount == s.physical[nodes[i].id]
              && nodes[i].id in s.reported && nodes[i].available == s.reported[nodes[i].id]
  {
  }

  /** A resume is admitted by the machine's report and its holds, and lowers the report by
      what it holds; a heartbeat says what it says. */
  lemma ReportsMove(s: State, d: string, hotkey: string, node: string, gpus: nat, available: int)
    requires node in s.physical && node in s.reported
    ensures var t := Apply(s, Resume(d, hotkey, node, gpus));
            if gpus <= s.reported[node] && Held(s.rows, node) + gpus <= s.physical[node]
            then t.rows == Put(s.rows, Row(d, hotkey, node, gpus, Active)) &&
                 t.reported == s.reported[node := s.reported[node] - gpus]
            else t == s
    ensures Apply(s, Heartbeat(node, available)) == s.(reported := s.reported[node := available])
  {
    ByNodeIsHeld(s.rows, node);
    hide ByNode, HeldExcept, Put;
  }

  /** What is released, deleted or reclaimed is no longer held, and the rest still is. */
  lemma FreedIsFree(s: State, d: string, ds: set<string>, live: set<string>, node: string)
    ensures Held(Apply(s, Release(d)).rows, node) == HeldExcept(s.rows, node, {d})
    ensures Held(Apply(s, Delete(ds)).rows, node) == HeldExcept(s.rows, node, ds)
    ensures Held(Apply(s, Reclaim(live)).rows, node) == HeldExcept(s.rows, node, Deployments(s.rows) - live)
  {
    ReleasedHeld(s.rows, {d}, node);
    DeletedHeld(s.rows, ds, node);
    ReleasedHeld(s.rows, Deployments(s.rows) - live, node);
  }

  function Run(s: State, steps: seq<Step>): State {
    if steps == [] then s else Apply(Run(s, steps[..|steps| - 1]), steps[|steps| - 1])
  }

  predicate Initial(s: State) { s.rows == [] && s.workers == map[] }

  // --- Safety --------------------------------------------------------------------

  /** No machine holds more than it has, and nothing is held on an unknown one. */
  ghost predicate WithinCapacity(physical: map<string, nat>, rows: seq<Row>) {
    forall n :: Held(rows, n) <= (if n in physical then physical[n] else 0)
  }

  /** What a worker decided on is a machine with its true GPU count. */
  ghost predicate PicksKnown(s: State) {
    forall p :: p in s.workers ==>
      match s.workers[p]
      case Idle => true
      case Listed(_, _, nodes) => KnownNodes(s.physical, nodes)
      case Snapshot(_, _, nodes, _) => KnownNodes(s.physical, nodes)
      case Chosen(_, _, n) => n.id in s.physical && n.gpuCount == s.physical[n.id]
      case Admitted(_, _, node, _) => node in s.physical
  }

  ghost predicate KnownNodes(physical: map<string, nat>, nodes: seq<Node>) {
    forall i :: 0 <= i < |nodes| ==> nodes[i].id in physical && nodes[i].gpuCount == physical[nodes[i].id]
  }

  ghost predicate Inv(s: State) {
    Unique(s.rows) && WithinCapacity(s.physical, s.rows) && PicksKnown(s)
  }

  /** Exactly when writing a hold keeps every machine within capacity: the test
      reserve_gpus makes when it is given one. */
  lemma HoldFitsIff(physical: map<string, nat>, rows: seq<Row>, r: Row)
    requires Unique(rows) && WithinCapacity(physical, rows) && r.status == Active && r.node in physical
    ensures WithinCapacity(physical, Put(rows, r)) <==>
            HeldExcept(rows, r.node, {r.deployment}) + r.gpus <= physical[r.node]
  {
    PutHeld(rows, r, r.node);
    forall n | n != r.node
      ensures Held(Put(rows, r), n) <= Held(rows, n)
    {
      PutHeld(rows, r, n);
      HeldMonotone(rows, n, {r.deployment});
    }
  }

  lemma FreeingFits(physical: map<string, nat>, rows: seq<Row>, gone: set<string>)
    requires Unique(rows) && WithinCapacity(physical, rows)
    ensures Unique(ReleaseAll(rows, gone)) && WithinCapacity(physical, ReleaseAll(rows, gone))
    ensures Unique(DeleteAll(rows, gone)) && WithinCapacity(physical, DeleteAll(rows, gone))
  {
    ReleasedHeld(rows, gone, "");
    DeletedDeployments(rows, gone);
    forall n
      ensures Held(ReleaseAll(rows, gone), n) <= Held(rows, n)
      ensures Held(DeleteAll(rows, gone), n) <= Held(rows, n)
    {
      ReleasedHeld(rows, gone, n);
      DeletedHeld(rows, gone, n);
      HeldMonotone(rows, n, gone);
    }
  }

  lemma PickIsKnown(w: Workload, nodes: seq<Node>, reserved: map<string, int>, physical: map<string, nat>)
    requires KnownNodes(physical, nodes)
    ensures var c := Choose(w, nodes, reserved);
            c.Some? ==> c.value.id in physical && c.value.gpuCount == physical[c.value.id]
  {
    var i := ChooseFirstBest(w, nodes, reserved);
  }

  lemma CommitKeeps(s: State, p: nat)
    requires Inv(s)
    ensures Inv(Apply(s, CommitHold(p)))
  {
    if At(s, p).Chosen? {
      var c := At(s, p);
      var r := Row(c.deployment, c.node.hotkey, c.node.id, c.w.gpus, Active);
      HoldFitsIff(s.physical, s.rows, r);
      PutDeployments(s.rows, r);
    }
  }

  lemma ResumeKeeps(s: State, d: string, hotkey: string, node: string, gpus: nat)
    requires Inv(s)
    ensures Inv(Apply(s, Resume(d, hotkey, node, gpus)))
  {
    if ResumeAdmitted(s, node, gpus) {
      var r := Row(d, hotkey, node, gpus, Active);
      ByNodeIsHeld(s.rows, node);
      HeldMonotone(s.rows, node, {d});
      HoldFitsIff(s.physical, s.rows, r);
      PutDeployments(s.rows, r);
    }
  }

  /** A resume that writes apart from its check still finds the room, besides what its
      own deployment holds. */
  predicate StillRoom(s: State, step: Step) {
    step.WriteResume? && At(s, step.worker).Admitted? ==>
      var Admitted(d, _, node, gpus) := At(s, step.worker);
      node in s.physical && HeldExcept(s.rows, node, {d}) + gpus <= s.physical[node]
  }

  predicate AlwaysRoom(s: State, steps: seq<Step>) {
    forall k :: 0 <= k < |steps| ==> StillRoom(Run(s, steps[..k]), steps[k])
  }

  /** The late write of a resume keeps every machine within capacity exactly when
      there is still room. */
  lemma LateResumeSafeIff(s: State, p: nat)
    requires Inv(s)
    ensures Inv(Apply(s, WriteResume(p))) <==> StillRoom(s, WriteResume(p))
  {
    if At(s, p).Admitted? {
      var Admitted(d, hotkey, node, gpus) := At(s, p);
      assert node in s.physical;
      var r := Row(d, hotkey, node, gpus, Active);
      HoldFitsIff(s.physical, s.rows, r);
      PutDeployments(s.rows, r);
      hide Put, HeldExcept, Unique, WithinCapacity;
    }
  }

  /** Directly after the check there is. */
  lemma ResumeAtOnceHasRoom(s: State, p: nat, d: string, hotkey: string, node: string, gpus: nat)
    requires Inv(s) && At(s, p).Idle? && ResumeAdmitted(s, node, gpus)
    ensures var t := Apply(s, CheckResume(p, d, hotkey, node, gpus));
            && At(t, p) == Admitted(d, hotkey, node, gpus) && StillRoom(t, WriteResume(p))
            && Apply(t, WriteResume(p)).rows == Apply(s, Resume(d, hotkey, node, gpus)).rows
  {
    ByNodeIsHeld(s.rows, node);
    HeldMonotone(s.rows, node, {d});
  }

  lemma StepKeeps(s: State, step: Step)
    requires Inv(s) && StillRoom(s, step)
    ensures Inv(Apply(s, step)) && Apply(s, step).physical == s.physical
  {
    match step
    case ListNodes(_, _, _, _) =>
    case ReadLedger(_) =>
    case PickNode(p) =>
      if At(s, p).Snapshot? {
        var c := At(s, p);
        PickIsKnown(c.w, c.nodes, c.reserved, s.physical);
      }
    case CommitHold(p) => CommitKeeps(s, p);
    case Resume(d, h, n, g) => ResumeKeeps(s, d, h, n, g);
    case CheckResume(_, _, _, _, _) =>
    case WriteResume(p) => LateResumeSafeIff(s, p);
    case Release(d) => FreeingFits(s.physical, s.rows, {d});
    case Delete(ds) => FreeingFits(s.physical, s.rows, ds);
    case Reclaim(live) => FreeingFits(s.physical, s.rows, Deployments(s.rows) - live);
    case Heartbeat(_, _) =>
  }

  /** No overbooking: in every interleaving, whatever the heartbeats claim, the
      active holds on a machine never add up to more GPUs than it has, and a
      deployment never has two holds. Resumes may be split as long as there is still
      room when they write. */
  lemma {:induction false} NeverOverbooked(s: State, steps: seq<Step>)
    requires Initial(s) && AlwaysRoom(s, steps)
    ensures Inv(Run(s, steps)) && Run(s, steps).physical == s.physical
    ensures forall n :: n in s.physical ==> Held(Run(s, steps).rows, n) <= s.physical[n]
  {
    if steps == [] {
      assert forall n :: Held(s.rows, n) == 0;
    } else {
      var init := steps[..|steps| - 1];
      assert forall k :: 0 <= k < |init| ==> init[..k] == steps[..k];
      NeverOverbooked(s, init);
      StepKeeps(Run(s, init), steps[|steps| - 1]);
    }
  }

  /** The second check is never in the way: a placement nobody interleaves with
      succeeds whenever some listed node can take the workload, and its hold is on
      the first of the best. */
  lemma UndisturbedPlacementHolds(s: State, p: nat) returns (i: int)
    requires Inv(s) && At(s, p).Listed?
    ensures var Listed(d, w, nodes) := At(s, p);
            var after := Run(s, [ReadLedger(p), PickNode(p), CommitHold(p)]);
            if exists j :: 0 <= j < |nodes| && Feasible(w, nodes[j], ByNode(s.rows))
            then FirstBest(w, nodes, ByNode(s.rows), i) &&
                 after.rows == Put(s.rows, Row(d, nodes[i].hotkey, nodes[i].id, w.gpus, Active)) &&
                 after.reported == Adjusted(s.reported, nodes[i].id, 0 - w.gpus)
            else after.rows == s.rows && after.reported == s.reported
  {
    hide Choose, Feasible, ByNode, Put, HeldExcept;
    var Listed(d, w, nodes) := At(s, p);
    RunThree(s, ReadLedger(p), PickNode(p), CommitHold(p));
    i := ChooseFirstBest(w, nodes, ByNode(s.rows));
    if Choose(w, nodes, ByNode(s.rows)).Some? {
      FeasibleHasRoom(w, nodes[i], s.rows, d);
    }
  }

  lemma FeasibleHasRoom(w: Workload, n: Node, rows: seq<Row>, d: string)
    requires Feasible(w, n, ByNode(rows))
    ensures HeldExcept(rows, n.id, {d}) + w.gpus <= n.gpuCount
  {
    ByNodeIsHeld(rows, n.id);
    HeldMonotone(rows, n.id, {d});
  }

  lemma RunThree(s: State, a: Step, b: Step, c: Step)
    ensures Run(s, [a, b, c]) == Apply(Apply(Apply(s, a), b), c)
  {
    assert [a, b, c][..2] == [a, b] && [a, b][..1] == [a] && [a][..0] == [];
    assert Run(s, [a]) == Apply(s, a);
    assert Run(s, [a, b]) == Apply(Run(s, [a]), b);
  }

  // --- What the safety rests on ------------------------------------------------

  /** Resume takes no lock and gives no capacity. Two resumes that both check before
      either writes can both take the last GPUs of any machine: it ends up overbooked. */
  lemma SplitResumeOverbooks(node: string, gpus: nat, hotkey: string, a: string, b: string)
    requires gpus >= 1 && a != b
    ensures var s := State(map[node := gpus], map[node := gpus], [], map[]);
            var steps := [CheckResume(0, a, hotkey, node, gpus), CheckResume(1, b, hotkey, node, gpus)] +
                         [WriteResume(0), WriteResume(1)];
            && Initial(s) && Run(s, steps).physical == map[node := gpus]
            && Held(Run(s, steps).rows, node) == 2 * gpus && !WithinCapacity(Run(s, steps).physical, Run(s, steps).rows)
  {
    var s := State(map[node := gpus], map[node := gpus], [], map[]);
    var c0, c1 := CheckResume(0, a, hotkey, node, gpus), CheckResume(1, b, hotkey, node, gpus);
    BothAdmitted(node, gpus, hotkey, a, b);
    var t := Apply(Apply(s, c0), c1);
    RunFour(s, c0, c1, WriteResume(0), WriteResume(1));
    hide Run;
    BothWrite(t, node, gpus, hotkey, a, b);
  }

  lemma BothWrite(t: State, node: string, gpus: nat, hotkey: string, a: string, b: string)
    requires t.rows == [] && a != b
    requires t.workers == map[0 := Admitted(a, hotkey, node, gpus), 1 := Admitted(b, hotkey, node, gpus)]
    ensures var u := Apply(Apply(t, WriteResume(0)), WriteResume(1));
            u.physical == t.physical && Held(u.rows, node) == 2 * gpus
  {
    var ra, rb := Row(a, hotkey, node, gpus, Active), Row(b, hotkey, node, gpus, Active);
    var one := Put([], ra);
    assert Apply(t, WriteResume(0)).rows == one;
    assert Apply(Apply(t, WriteResume(0)), WriteResume(1)).rows == Put(one, rb);
    hide Apply;
    PutHeld([], ra, node);
    PutDeployments([], ra);
    HeldMonotone(one, node, {b});
    PutHeld(one, rb, node);
  }

  lemma BothAdmitted(node: string, gpus: nat, hotkey: string, a: string, b: string)
    ensures var s := State(map[node := gpus], map[node := gpus], [], map[]);
            Apply(Apply(s, CheckResume(0, a, hotkey, node, gpus)), CheckResume(1, b, hotkey, node, gpus)) ==
            s.(workers := map[0 := Admitted(a, hotkey, node, gpus), 1 := Admitted(b, hotkey, node, gpus)])
  {
    ByNodeIsHeld([], node);
  }

  lemma RunFour(s: State, a: Step, b: Step, c: Step, d: Step)
    ensures Run(s, [a, b] + [c, d]) == Apply(Apply(Apply(Apply(s, a), b), c), d)
  {
    hide Apply;
    assert ([a, b] + [c, d])[..3] == [a, b, c];
    RunThree(s, a, b, c);
  }
}
