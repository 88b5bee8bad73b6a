/**
  Capacity alerts: the sum a waiting alert is tested with, what that sum means
  for rentals that each need one machine, and that the scheduler can really place
  them when it says so.
 */
module Packing {
  import opened Common
  import opened Scheduler
  import opened Ledger
  import opened Placement

  /** How many rentals of g GPUs fit, machine by machine. */
  function Room(free: seq<nat>, g: nat): nat
    requires g >= 1
  {
    if free == [] then 0 else free[0] / g + Room(free[1..], g)
  }

  method Fits(free: seq<nat>, g: nat, count: nat) returns (fits: bool)
    requires g >= 1
    ensures fits <==> exists packing: seq<nat> :: |packing| == count && ValidPacking(free, g, packing)
  {
    var sum := 0;
    for k := 0 to |free|
      invariant sum + Room(free[k..], g) == Room(free, g)
    {
      assert free[k..][1..] == free[k + 1..];
      sum := sum + free[k] / g;
    }
    fits := sum >= count;
    RoomIsPacking(free, g, count);
  }

  // --- Packings -------------------------------------------------------------------

  /** How many rentals of a packing are on machine i. */
  function Load(packing: seq<nat>, i: nat): nat {
    if packing == [] then 0 else (if packing[0] == i then 1 else 0) + Load(packing[1..], i)
  }

  /** Each rental names its machine; no machine is asked for more than it has free. */
  ghost predicate ValidPacking(free: seq<nat>, g: nat, packing: seq<nat>) {
    && (forall k :: 0 <= k < |packing| ==> packing[k] < |free|)
    && (forall i :: 0 <= i < |free| ==> Load(packing, i) * g <= free[i])
  }

  function Place(free: seq<nat>, i: nat, g: nat): seq<nat>
    requires i < |free| && free[i] >= g
  {
    free[i := free[i] - g]
  }

  lemma DivStep(f: nat, g: nat)
    requires 1 <= g <= f
    ensures (f - g) / g == f / g - 1
  {
    var q := f / g;
    assert f == q * g + f % g;
    assert f - g == (q - 1) * g + f % g;
    assert 0 <= f % g < g;
    DivUnique(f - g, g, q - 1, f % g);
  }

  lemma DivUnique(x: int, g: nat, q: int, r: nat)
    requires 0 <= r < g && x == q * g + r
    ensures x / g == q
  {
    var q' := x / g;
    assert x == q' * g + x % g;
    assert (q' - q) * g == r - x % g && (q - q') * g == x % g - r;
    if q' > q {
      MulAtLeast(q' - q, g);
    } else if q' < q {
      MulAtLeast(q - q', g);
    }
  }

  lemma MulAtLeast(a: int, g: nat)
    requires a >= 1
    ensures a * g >= g
  {
    assert a * g == (a - 1) * g + g;
  }

  /** Any placement on a machine with room uses up exactly one. */
  lemma {:induction false} PlaceTakesOne(free: seq<nat>, i: nat, g: nat)
    requires g >= 1 && i < |free| && free[i] >= g
    ensures Room(Place(free, i, g), g) == Room(free, g) - 1
  {
    if i == 0 {
      DivStep(free[0], g);
      assert Place(free, i, g)[1..] == free[1..];
    } else {
      PlaceTakesOne(free[1..], i - 1, g);
      assert Place(free, i, g)[1..] == Place(free[1..], i - 1, g);
    }
  }

  lemma {:induction false} RoomMeansMachine(free: seq<nat>, g: nat)
    requires g >= 1
    ensures Room(free, g) >= 1 <==> exists i :: 0 <= i < |free| && free[i] >= g
  {
    if free != [] {
      RoomMeansMachine(free[1..], g);
      if free[0] >= g {
        DivStep(free[0], g);
      } else {
        DivUnique(free[0], g, 0, free[0]);
        assert forall i :: 0 < i < |free| ==> free[i] == free[1..][i - 1];
      }
    }
  }

  lemma PackingHead(free: seq<nat>, g: nat, packing: seq<nat>)
    requires g >= 1 && ValidPacking(free, g, packing) && packing != []
    ensures free[packing[0]] >= g
    ensures ValidPacking(Place(free, packing[0], g), g, packing[1..])
  {
    var m := packing[0];
    assert Load(packing, m) == 1 + Load(packing[1..], m);
    assert Load(packing, m) * g == g + Load(packing[1..], m) * g;
    var rest := Place(free, m, g);
    forall i | 0 <= i < |rest| ensures Load(packing[1..], i) * g <= rest[i] {
      assert Load(packing, i) * g <= free[i];
      assert i != m ==> Load(packing, i) == Load(packing[1..], i);
    }
  }

  lemma PackingCons(free: seq<nat>, g: nat, m: nat, packing: seq<nat>)
    requires g >= 1 && m < |free| && free[m] >= g && ValidPacking(Place(free, m, g), g, packing)
    ensures ValidPacking(free, g, [m] + packing)
  {
    var whole := [m] + packing;
    assert whole[1..] == packing;
    forall i | 0 <= i < |free| ensures Load(whole, i) * g <= free[i] {
      assert Load(packing, i) * g <= Place(free, m, g)[i];
      assert Load(whole, i) == (if m == i then 1 else 0) + Load(packing, i);
      assert (1 + Load(packing, i)) * g == g + Load(packing, i) * g;
    }
  }

  /** The sum the alert is tested with is exactly the question it should answer. */
  lemma {:induction false} RoomIsPacking(free: seq<nat>, g: nat, count: nat)
    requires g >= 1
    ensures Room(free, g) >= count <==> exists packing: seq<nat> :: |packing| == count && ValidPacking(free, g, packing)
    decreases count
  {
    if count == 0 {
      assert ValidPacking(free, g, []);
    } else {
      if packing: seq<nat> :| |packing| == count && ValidPacking(free, g, packing) {
        PackingHead(free, g, packing);
        RoomIsPacking(Place(free, packing[0], g), g, count - 1);
        PlaceTakesOne(free, packing[0], g);
      }
      if Room(free, g) >= count {
        RoomMeansMachine(free, g);
        var m :| 0 <= m < |free| && free[m] >= g;
        PlaceTakesOne(free, m, g);
        RoomIsPacking(Place(free, m, g), g, count - 1);
        var rest: seq<nat> :| |rest| == count - 1 && ValidPacking(Place(free, m, g), g, rest);
        PackingCons(free, g, m, rest);
      }
    }
  }

  // --- No order of placements gets stuck -------------------------------------------

  /** Each choice lands on a machine that still has g free at that moment. */
  ghost predicate PlacedInTurn(free: seq<nat>, g: nat, choices: seq<nat>)
    decreases |choices|
  {
    choices == [] || (choices[0] < |free| && free[choices[0]] >= g &&
                      PlacedInTurn(Place(free, choices[0], g), g, choices[1..]))
  }

  /** However the first k rentals were spread, a further one fits exactly while
      k is below the sum. */
  lemma {:induction false} AnyOrderFits(free: seq<nat>, g: nat, choices: seq<nat>)
    requires g >= 1 && PlacedInTurn(free, g, choices)
    ensures |choices| <= Room(free, g)
    ensures |choices| < Room(free, g) <==> exists m :: PlacedInTurn(free, g, choices + [m])
    decreases |choices|
  {
    if choices == [] {
      RoomMeansMachine(free, g);
      if m: nat :| PlacedInTurn(free, g, [] + [m]) {
        assert ([] + [m])[0] == m;
      }
      if m :| 0 <= m < |free| && free[m] >= g {
        assert ([] + [m])[0] == m && ([] + [m])[1..] == [];
        assert PlacedInTurn(free, g, [] + [m]);
      }
    } else {
      var rest := Place(free, choices[0], g);
      PlaceTakesOne(free, choices[0], g);
      AnyOrderFits(rest, g, choices[1..]);
      forall m: nat ensures PlacedInTurn(free, g, choices + [m]) <==> PlacedInTurn(rest, g, choices[1..] + [m]) {
        assert (choices + [m])[1..] == choices[1..] + [m];
      }
    }
  }

  // --- The scheduler keeps the alert's promise --------------------------------------

  /** Machines that differ in nothing the workload asks for but free GPUs. */
  ghost predicate Fleet(s: State, w: Workload, fleet: seq<Node>) {
    && (forall i :: 0 <= i < |fleet| ==>
          fleet[i].id in s.physical && fleet[i].id in s.reported &&
          fleet[i].gpuCount == s.physical[fleet[i].id] && Compatible(w, fleet[i]))
    && (forall i, j :: 0 <= i < j < |fleet| ==> fleet[i].id != fleet[j].id)
  }

  /** schedulable_capacity: what could be handed out on each machine right now. */
  function FreeNow(s: State, fleet: seq<Node>): (free: seq<nat>)
    requires forall i :: 0 <= i < |fleet| ==> fleet[i].id in s.physical && fleet[i].id in s.reported
    ensures |free| == |fleet|
  {
    seq(|fleet|, i requires 0 <= i < |fleet| => Max(0, EffectiveNow(s, fleet[i].id)))
  }

  /** The fleet as its last heartbeats describe it. */
  function Refreshed(s: State, fleet: seq<Node>): seq<Node>
    requires forall i :: 0 <= i < |fleet| ==> fleet[i].id in s.reported
  {
    seq(|fleet|, i requires 0 <= i < |fleet| => fleet[i].(available := s.reported[fleet[i].id]))
  }

  /** One whole placement with nothing in between. */
  function AssignOnce(s: State, p: nat, d: string, w: Workload, fleet: seq<Node>): (after: State)
    requires forall i :: 0 <= i < |fleet| ==> fleet[i].id in s.reported
    ensures after.physical == s.physical && after.reported.Keys == s.reported.Keys
  {
    RunKeepsMachines(Apply(s, ListNodes(p, d, w, Refreshed(s, fleet))), p);
    Run(Apply(s, ListNodes(p, d, w, Refreshed(s, fleet))), [ReadLedger(p), PickNode(p), CommitHold(p)])
  }

  lemma RunKeepsMachines(s: State, p: nat)
    ensures var after := Run(s, [ReadLedger(p), PickNode(p), CommitHold(p)]);
            after.physical == s.physical && after.reported.Keys == s.reported.Keys
  {
    hide Choose, Reserve, ByNode;
    RunThree(s, ReadLedger(p), PickNode(p), CommitHold(p));
  }

  ghost predicate Ready(s: State, p: nat, w: Workload, fleet: seq<Node>) {
    Inv(s) && At(s, p).Idle? && Fleet(s, w, fleet) && w.gpus >= 1
  }

  lemma AssignKeepsReady(s: State, p: nat, d: string, w: Workload, fleet: seq<Node>)
    requires Ready(s, p, w, fleet)
    ensures Ready(AssignOnce(s, p, d, w, fleet), p, w, fleet)
  {
    hide Inv, Choose, Reserve, ByNode;
    var listed := Apply(s, ListNodes(p, d, w, Refreshed(s, fleet)));
    StepKeeps(s, ListNodes(p, d, w, Refreshed(s, fleet)));
    var read := Apply(listed, ReadLedger(p));
    StepKeeps(listed, ReadLedger(p));
    var picked := Apply(read, PickNode(p));
    StepKeeps(read, PickNode(p));
    StepKeeps(picked, CommitHold(p));
    RunThree(listed, ReadLedger(p), PickNode(p), CommitHold(p));
    assert At(Apply(picked, CommitHold(p)), p).Idle?;
  }

  lemma FeasibleIsFree(s: State, w: Workload, fleet: seq<Node>, j: int)
    requires Fleet(s, w, fleet) && 0 <= j < |fleet| && w.gpus >= 1
    ensures Feasible(w, Refreshed(s, fleet)[j], ByNode(s.rows)) <==> FreeNow(s, fleet)[j] >= w.gpus
  {
  }

  lemma SomeFeasibleIsRoom(s: State, w: Workload, fleet: seq<Node>)
    requires Fleet(s, w, fleet) && w.gpus >= 1
    ensures (exists j :: 0 <= j < |fleet| && Feasible(w, Refreshed(s, fleet)[j], ByNode(s.rows))) <==>
            Room(FreeNow(s, fleet), w.gpus) >= 1
  {
    hide Feasible, FreeNow, Room;
    RoomMeansMachine(FreeNow(s, fleet), w.gpus);
    forall j | 0 <= j < |fleet|
      ensures Feasible(w, Refreshed(s, fleet)[j], ByNode(s.rows)) <==> FreeNow(s, fleet)[j] >= w.gpus
    {
      FeasibleIsFree(s, w, fleet, j);
    }
  }

  /** What one placement does, told by the first of the best machines. */
  lemma AssignShape(s: State, p: nat, d: string, w: Workload, fleet: seq<Node>) returns (i: int)
    requires Ready(s, p, w, fleet)
    ensures var after := AssignOnce(s, p, d, w, fleet);
            if Room(FreeNow(s, fleet), w.gpus) >= 1
            then 0 <= i < |fleet| && FreeNow(s, fleet)[i] >= w.gpus &&
                 after.rows == Put(s.rows, Row(d, fleet[i].hotkey, fleet[i].id, w.gpus, Active)) &&
                 after.reported == Adjusted(s.reported, fleet[i].id, 0 - w.gpus)
            else after.rows == s.rows && after.reported == s.reported
  {
    hide Feasible, FreeNow, Put, Room, Choose, ByNode, Run;
    var nodes := Refreshed(s, fleet);
    var listed := Apply(s, ListNodes(p, d, w, nodes));
    StepKeeps(s, ListNodes(p, d, w, nodes));
    RunThree(listed, ReadLedger(p), PickNode(p), CommitHold(p));
    SomeFeasibleIsRoom(s, w, fleet);
    i := UndisturbedPlacementHolds(listed, p);
    if Room(FreeNow(s, fleet), w.gpus) >= 1 {
      FeasibleIsFree(s, w, fleet, i);
    }
  }

  lemma AssignTakesOne(s: State, p: nat, d: string, w: Workload, fleet: seq<Node>)
    requires Ready(s, p, w, fleet) && d !in Deployments(s.rows)
    ensures var after := AssignOnce(s, p, d, w, fleet);
            if Room(FreeNow(s, fleet), w.gpus) >= 1
            then Room(FreeNow(after, fleet), w.gpus) == Room(FreeNow(s, fleet), w.gpus) - 1 &&
                 Deployments(after.rows) == Deployments(s.rows) + {d}
            else after.rows == s.rows && FreeNow(after, fleet) == FreeNow(s, fleet)
  {
    hide AssignOnce;
    var after := AssignOnce(s, p, d, w, fleet);
    var i := AssignShape(s, p, d, w, fleet);
    if Room(FreeNow(s, fleet), w.gpus) >= 1 {
      var r := Row(d, fleet[i].hotkey, fleet[i].id, w.gpus, Active);
      PutDeployments(s.rows, r);
      HoldTakesFree(s, after, fleet, r, i);
      PlaceTakesOne(FreeNow(s, fleet), i, w.gpus);
    }
  }

  /** A new hold lowers the free GPUs of its own machine, by its size, and of no other. */
  lemma HoldTakesFree(s: State, after: State, fleet: seq<Node>, r: Row, i: int)
    requires Inv(s) && 0 <= i < |fleet| && r.deployment !in Deployments(s.rows) && r.status == Active
    requires forall k :: 0 <= k < |fleet| ==> fleet[k].id in s.physical && fleet[k].id in s.reported
    requires forall k, l :: 0 <= k < l < |fleet| ==> fleet[k].id != fleet[l].id
    requires r.node == fleet[i].id && FreeNow(s, fleet)[i] >= r.gpus >= 1
    requires after.rows == Put(s.rows, r) && after.reported == Adjusted(s.reported, r.node, 0 - r.gpus)
    requires after.physical == s.physical
    ensures FreeNow(after, fleet) == Place(FreeNow(s, fleet), i, r.gpus)
  {
    forall k | 0 <= k < |fleet|
      ensures FreeNow(after, fleet)[k] == Place(FreeNow(s, fleet), i, r.gpus)[k]
    {
      ByNodeIsHeld(s.rows, fleet[k].id);
      ByNodeIsHeld(after.rows, fleet[k].id);
      PutHeld(s.rows, r, fleet[k].id);
      HeldMonotone(s.rows, fleet[k].id, {r.deployment});
    }
  }

  function AssignAll(s: State, p: nat, ds: seq<string>, w: Workload, fleet: seq<Node>): State
    requires forall i :: 0 <= i < |fleet| ==> fleet[i].id in s.reported
    decreases |ds|
  {
    if ds == [] then s else AssignAll(AssignOnce(s, p, ds[0], w, fleet), p, ds[1..], w, fleet)
  }

  function Names(ds: seq<string>): set<string> { set i | 0 <= i < |ds| :: ds[i] }

  ghost predicate New(ds: seq<string>, rows: seq<Row>) {
    && (forall i :: 0 <= i < |ds| ==> ds[i] !in Deployments(rows))
    && (forall i, j :: 0 <= i < j < |ds| ==> ds[i] != ds[j])
  }

  /** The deployment holds the GPUs it asked for, on one machine of the fleet. */
  predicate HoldsOne(rows: seq<Row>, d: string, w: Workload, fleet: seq<Node>) {
    exists k :: 0 <= k < |fleet| && Row(d, fleet[k].hotkey, fleet[k].id, w.gpus, Active) in rows
  }

  lemma {:induction false} PutKeepsOthers(rows: seq<Row>, r: Row)
    ensures r in Put(rows, r)
    ensures forall x :: x in rows && x.deployment != r.deployment ==> x in Put(rows, r)
  {
    if rows != [] && rows[0].deployment != r.deployment {
      PutKeepsOthers(rows[1..], r);
    }
  }

  /** Later placements leave a row of another deployment alone. */
  lemma {:induction false} PlacedStays(s: State, p: nat, ds: seq<string>, w: Workload, fleet: seq<Node>, x: Row)
    requires Ready(s, p, w, fleet) && x in s.rows && x.deployment !in ds
    ensures x in AssignAll(s, p, ds, w, fleet).rows
    decreases |ds|
  {
    if ds != [] {
      var i := AssignShape(s, p, ds[0], w, fleet);
      AssignKeepsReady(s, p, ds[0], w, fleet);
      hide AssignOnce, Ready, FreeNow, Room;
      if Room(FreeNow(s, fleet), w.gpus) >= 1 {
        PutKeepsOthers(s.rows, Row(ds[0], fleet[i].hotkey, fleet[i].id, w.gpus, Active));
      }
      PlacedStays(AssignOnce(s, p, ds[0], w, fleet), p, ds[1..], w, fleet, x);
    }
  }

  /** Each of the first Room holds its GPUs on one machine. */
  lemma {:induction false} PlacedHold(s: State, p: nat, ds: seq<string>, w: Workload, fleet: seq<Node>, j: nat)
    requires Ready(s, p, w, fleet) && New(ds, s.rows) && j < Min(|ds|, Room(FreeNow(s, fleet), w.gpus))
    ensures HoldsOne(AssignAll(s, p, ds, w, fleet).rows, ds[j], w, fleet)
    decreases |ds|
  {
    hide AssignOnce, FreeNow, Room;
    var next := AssignOnce(s, p, ds[0], w, fleet);
    AssignTakesOne(s, p, ds[0], w, fleet);
    AssignKeepsReady(s, p, ds[0], w, fleet);
    hide Ready;
    if j == 0 {
      var i := AssignShape(s, p, ds[0], w, fleet);
      var r := Row(ds[0], fleet[i].hotkey, fleet[i].id, w.gpus, Active);
      PutKeepsOthers(s.rows, r);
      PlacedStays(next, p, ds[1..], w, fleet, r);
    } else {
      PlacedHold(next, p, ds[1..], w, fleet, j - 1);
    }
  }

  lemma {:induction false} PlacedAre(s: State, p: nat, ds: seq<string>, w: Workload, fleet: seq<Node>)
    requires Ready(s, p, w, fleet) && New(ds, s.rows)
    ensures var placed := Min(|ds|, Room(FreeNow(s, fleet), w.gpus));
            Deployments(AssignAll(s, p, ds, w, fleet).rows) == Deployments(s.rows) + Names(ds[..placed])
    decreases |ds|
  {
    hide AssignOnce, Inv, FreeNow;
    if ds != [] {
      var next := AssignOnce(s, p, ds[0], w, fleet);
      AssignTakesOne(s, p, ds[0], w, fleet);
      AssignKeepsReady(s, p, ds[0], w, fleet);
      PlacedAre(next, p, ds[1..], w, fleet);
      var room := Room(FreeNow(s, fleet), w.gpus);
      if room >= 1 {
        var placed := Min(|ds|, room);
        assert ds[..placed] == [ds[0]] + ds[1..][..placed - 1];
        NamesCons(ds[0], ds[1..][..placed - 1]);
      } else {
        assert ds[1..][..0] == ds[..0] == [];
      }
    }
  }

  /** Back-to-back placements of new deployments on the fleet: exactly the first
      Room of them get their GPUs, each on one machine, so all of them do exactly when
      the alert's test passes for their number. */
  lemma AlertKeepsItsPromise(s: State, p: nat, ds: seq<string>, w: Workload, fleet: seq<Node>)
    requires Ready(s, p, w, fleet) && New(ds, s.rows)
    ensures var placed, rows := Min(|ds|, Room(FreeNow(s, fleet), w.gpus)), AssignAll(s, p, ds, w, fleet).rows;
            && Deployments(rows) == Deployments(s.rows) + Names(ds[..placed])
            && forall j :: 0 <= j < placed ==> HoldsOne(rows, ds[j], w, fleet)
  {
    PlacedAre(s, p, ds, w, fleet);
    hide AssignAll, FreeNow, Room, HoldsOne, Ready, New, Deployments, Names;
    forall j | 0 <= j < Min(|ds|, Room(FreeNow(s, fleet), w.gpus))
      ensures HoldsOne(AssignAll(s, p, ds, w, fleet).rows, ds[j], w, fleet)
    {
      PlacedHold(s, p, ds, w, fleet, j);
    }
  }

  lemma NamesCons(d: string, ds: seq<string>)
    ensures Names([d] + ds) == {d} + Names(ds)
  {
    var all := [d] + ds;
    assert all[0] == d;
    forall x | x in Names(ds) ensures x in Names(all) {
      var i :| 0 <= i < |ds| && ds[i] == x;
      assert all[i + 1] == x;
    }
  }

  // --- The alert's input --------------------------------------------------------------

  /** The free GPUs of one model's machines, machines with none left out. */
  function FreeOf(capacity: seq<(string, int)>, model: string): seq<nat> {
    if capacity == [] then []
    else
      var (m, free) := capacity[|capacity| - 1];
      FreeOf(capacity[..|capacity| - 1], model) + (if free > 0 && Normalize(m) == model then [free] else [])
  }

  function Machines(out: map<string, seq<nat>>, model: string): seq<nat> {
    if model in out then out[model] else []
  }

  lemma FreeOfNothing()
    ensures forall model :: FreeOf([], model) == []
  {
  }

  lemma FreeOfSnoc(capacity: seq<(string, int)>, entry: (string, int), model: string)
    ensures FreeOf(capacity + [entry], model) ==
            if entry.1 > 0 && Normalize(entry.0) == model
            then FreeOf(capacity, model) + [entry.1] else FreeOf(capacity, model)
  {
    assert (capacity + [entry])[..|capacity|] == capacity;
  }

  method FreeByModel(capacity: seq<(string, int)>) returns (out: map<string, seq<nat>>)
    ensures forall model :: Machines(out, model) == FreeOf(capacity, model)
  {
    hide FreeOf, Normalize;
    assert forall model :: FreeOf([], model) == [] by { FreeOfNothing(); }
    out := map[];
    for k := 0 to |capacity|
      invariant forall model :: Machines(out, model) == FreeOf(capacity[..k], model)
    {
      var (m, free) := capacity[k];
      ghost var before := out;
      if free > 0 {
        var model := Normalize(m);
        out := out[model := Machines(out, model) + [free]];
      }
      forall model ensures Machines(out, model) == FreeOf(capacity[..k + 1], model) {
        assert Machines(before, model) == FreeOf(capacity[..k], model);
        FreeOfSnoc(capacity[..k], capacity[k], model);
        assert capacity[..k + 1] == capacity[..k] + [capacity[k]];
      }
    }
    assert capacity[..|capacity|] == capacity;
  }

  lemma {:induction false} RoomSnoc(free: seq<nat>, f: nat, g: nat)
    requires g >= 1
    ensures Room(free + [f], g) == Room(free, g) + f / g
  {
    if free == [] {
      assert free + [f] == [f] && [f][1..] == [];
    } else {
      RoomSnoc(free[1..], f, g);
      assert (free + [f])[1..] == free[1..] + [f];
    }
  }

  /** Leaving out the full machines does not change the answer. */
  lemma {:induction false} FullMachinesDoNotCount(model: string, free: seq<nat>, g: nat)
    requires g >= 1 && Normalize(model) == model
    ensures Room(FreeOf(seq(|free|, i requires 0 <= i < |free| => (model, free[i])), model), g) == Room(free, g)
  {
    var capacity := seq(|free|, i requires 0 <= i < |free| => (model, free[i]));
    if free != [] {
      var front := free[..|free| - 1];
      var last := free[|free| - 1];
      FullMachinesDoNotCount(model, front, g);
      assert capacity[..|free| - 1] == seq(|front|, i requires 0 <= i < |front| => (model, front[i]));
      assert free == front + [last];
      RoomSnoc(front, last, g);
      if last > 0 {
        RoomSnoc(FreeOf(capacity[..|free| - 1], model), last, g);
      } else {
        DivUnique(0, g, 0, 0);
        assert FreeOf(capacity, model) == FreeOf(capacity[..|free| - 1], model);
      }
    }
  }
}
