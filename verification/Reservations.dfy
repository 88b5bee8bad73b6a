/**
  The GPU reservation ledger: one row per deployment, the sums the scheduler
  reads from it, and the in-place updates of the repository.
 */
module Ledger {
  import opened Common
  import Scheduler

  datatype Status = Active | Released

  datatype Row = Row(deployment: string, hotkey: string, node: string, gpus: nat, status: Status)

  /** deployment is a UNIQUE column. */
  ghost predicate Unique(rows: seq<Row>) {
    forall i, j :: 0 <= i < j < |rows| ==> rows[i].deployment != rows[j].deployment
  }

  function Deployments(rows: seq<Row>): set<string> {
    set i | 0 <= i < |rows| :: rows[i].deployment
  }

  function Weight(r: Row, node: string, except: set<string>): nat {
    if r.status == Active && r.node == node && r.deployment !in except then r.gpus else 0
  }

  /** GPUs held on a node by deployments outside `except`. */
  function HeldExcept(rows: seq<Row>, node: string, except: set<string>): nat {
    if rows == [] then 0 else Weight(rows[0], node, except) + HeldExcept(rows[1..], node, except)
  }

  function Held(rows: seq<Row>, node: string): nat { HeldExcept(rows, node, {}) }

  lemma {:induction false} HeldMonotone(rows: seq<Row>, node: string, except: set<string>)
    ensures HeldExcept(rows, node, except) <= Held(rows, node)
    ensures except !! Deployments(rows) ==> HeldExcept(rows, node, except) == Held(rows, node)
  {
    if rows != [] {
      HeldMonotone(rows[1..], node, except);
      assert rows[0].deployment in Deployments(rows);
      assert Deployments(rows[1..]) <= Deployments(rows);
    }
  }

  // --- Specifications of the updates --------------------------------------------

  /** The row of r.deployment replaced by r, or r appended. */
  function Put(rows: seq<Row>, r: Row): seq<Row> {
    if rows == [] then [r]
    else if rows[0].deployment == r.deployment then [r] + rows[1..]
    else [rows[0]] + Put(rows[1..], r)
  }

  /** A reservation, refused when a capacity is given and would be exceeded. */
  function Reserve(rows: seq<Row>, r: Row, capacity: Option<int>): (seq<Row>, bool) {
    if capacity.Some? && HeldExcept(rows, r.node, {r.deployment}) + r.gpus > capacity.value then (rows, false)
    else (Put(rows, r), true)
  }

  function Freed(r: Row, gone: set<string>): Row {
    if r.deployment in gone then r.(status := Released) else r
  }

  function ReleaseAll(rows: seq<Row>, gone: set<string>): seq<Row> {
    seq(|rows|, i requires 0 <= i < |rows| => Freed(rows[i], gone))
  }

  function DeleteAll(rows: seq<Row>, gone: set<string>): seq<Row> {
    if rows == [] then []
    else (if rows[0].deployment in gone then [] else [rows[0]]) + DeleteAll(rows[1..], gone)
  }

  lemma {:induction false} PutAt(rows: seq<Row>, r: Row, i: nat)
    requires i <= |rows| && forall k :: 0 <= k < i ==> rows[k].deployment != r.deployment
    requires i == |rows| || rows[i].deployment == r.deployment
    ensures Put(rows, r) == if i < |rows| then rows[i := r] else rows + [r]
  {
    if i > 0 {
      PutAt(rows[1..], r, i - 1);
    }
  }

  lemma {:induction false} PutDeployments(rows: seq<Row>, r: Row)
    requires Unique(rows)
    ensures Unique(Put(rows, r))
    ensures Deployments(Put(rows, r)) == Deployments(rows) + {r.deployment}
  {
    if rows == [] {
      assert Put(rows, r)[0] == r;
    } else {
      assert rows[0].deployment in Deployments(rows);
      assert Deployments(rows) == {rows[0].deployment} + Deployments(rows[1..])
             by { ConsDeployments(rows[0], rows[1..]); }
      if rows[0].deployment == r.deployment {
        ConsDeployments(r, rows[1..]);
      } else {
        PutDeployments(rows[1..], r);
        var tail := Put(rows[1..], r);
        ConsDeployments(rows[0], tail);
        assert rows[0].deployment !in Deployments(tail);
        forall j | 0 <= j < |tail| ensures tail[j].deployment != rows[0].deployment {
          assert tail[j].deployment in Deployments(tail);
        }
      }
    }
  }

  lemma ConsDeployments(r: Row, rows: seq<Row>)
    ensures Deployments([r] + rows) == {r.deployment} + Deployments(rows)
  {
    var all := [r] + rows;
    assert all[0] == r;
    forall d | d in Deployments(rows) ensures d in Deployments(all) {
      var i :| 0 <= i < |rows| && rows[i].deployment == d;
      assert all[i + 1] == rows[i];
    }
  }

  /** What a reservation does to every node's total: it replaces whatever its own
      deployment held, wherever that was. */
  lemma {:induction false} PutHeld(rows: seq<Row>, r: Row, node: string)
    requires Unique(rows) && r.status == Active
    ensures Held(Put(rows, r), node) == HeldExcept(rows, node, {r.deployment}) + (if node == r.node then r.gpus else 0)
  {
    if rows == [] {
      assert Put(rows, r) == [r] && [r][1..] == [];
      assert HeldExcept([r], node, {}) == Weight(r, node, {});
    } else {
      if rows[0].deployment == r.deployment {
        assert {r.deployment} !! Deployments(rows[1..]);
        HeldMonotone(rows[1..], node, {r.deployment});
        assert Put(rows, r)[1..] == rows[1..];
      } else {
        PutHeld(rows[1..], r, node);
        assert Put(rows, r)[1..] == Put(rows[1..], r);
      }
    }
  }

  /** Releasing a set of deployments frees exactly their GPUs. */
  lemma {:induction false} ReleasedHeld(rows: seq<Row>, gone: set<string>, node: string)
    ensures Unique(rows) ==> Unique(ReleaseAll(rows, gone))
    ensures Held(ReleaseAll(rows, gone), node) == HeldExcept(rows, node, gone)
  {
    if rows != [] {
      ReleasedHeld(rows[1..], gone, node);
      assert ReleaseAll(rows, gone)[1..] == ReleaseAll(rows[1..], gone);
    }
  }

  lemma {:induction false} DeletedDeployments(rows: seq<Row>, gone: set<string>)
    requires Unique(rows)
    ensures Unique(DeleteAll(rows, gone))
    ensures Deployments(DeleteAll(rows, gone)) == Deployments(rows) - gone
  {
    if rows != [] {
      var kept := DeleteAll(rows[1..], gone);
      DeletedDeployments(rows[1..], gone);
      ConsDeployments(rows[0], rows[1..]);
      assert rows == [rows[0]] + rows[1..];
      if rows[0].deployment !in gone {
        ConsDeployments(rows[0], kept);
        forall j | 0 <= j < |kept| ensures kept[j].deployment != rows[0].deployment {
          assert kept[j].deployment in Deployments(kept);
        }
      } else {
        assert DeleteAll(rows, gone) == kept;
      }
    }
  }

  /** Deleting them frees the same. */
  lemma {:induction false} DeletedHeld(rows: seq<Row>, gone: set<string>, node: string)
    ensures Held(DeleteAll(rows, gone), node) == HeldExcept(rows, node, gone)
  {
    if rows != [] {
      DeletedHeld(rows[1..], gone, node);
      if rows[0].deployment !in gone {
        assert DeleteAll(rows, gone)[1..] == DeleteAll(rows[1..], gone);
      } else {
        assert DeleteAll(rows, gone) == DeleteAll(rows[1..], gone);
      }
    }
  }

  // --- Reserved GPUs per node -----------------------------------------------------

  function HoldingNodes(rows: seq<Row>): set<string> {
    set i | 0 <= i < |rows| && rows[i].status == Active :: rows[i].node
  }

  function ByNode(rows: seq<Row>): map<string, int> {
    map n | n in HoldingNodes(rows) :: Held(rows, n)
  }

  lemma {:induction false} NotHolding(rows: seq<Row>, node: string)
    requires node !in HoldingNodes(rows)
    ensures Held(rows, node) == 0
  {
    if rows != [] {
      assert rows[0].status == Active ==> rows[0].node in HoldingNodes(rows);
      assert HoldingNodes(rows[1..]) <= HoldingNodes(rows);
      NotHolding(rows[1..], node);
    }
  }

  lemma ByNodeIsHeld(rows: seq<Row>, node: string)
    ensures Scheduler.ReservedOn(ByNode(rows), node) == Held(rows, node)
  {
    if node !in HoldingNodes(rows) {
      NotHolding(rows, node);
    }
  }

  lemma {:induction false} HeldSnoc(rows: seq<Row>, r: Row, node: string, except: set<string>)
    ensures HeldExcept(rows + [r], node, except) == HeldExcept(rows, node, except) + Weight(r, node, except)
  {
    if rows == [] {
      assert rows + [r] == [r];
    } else {
      HeldSnoc(rows[1..], r, node, except);
      assert (rows + [r])[1..] == rows[1..] + [r];
    }
  }

  function HeldStatuses(rows: seq<Row>, deployment: string): set<Status> {
    set i | 0 <= i < |rows| && rows[i].deployment == deployment :: rows[i].status
  }

  /** How many holds belong to deployments that are gone or have ended. */
  function Orphans(rows: seq<Row>, live: set<string>): nat {
    if rows == [] then 0
    else (if rows[0].status == Active && rows[0].deployment !in live then 1 else 0) + Orphans(rows[1..], live)
  }

  /** One more row is one more orphan if it is a hold of a deployment that is not live. */
  lemma OrphanCounts(r: Row, rows: seq<Row>, live: set<string>)
    ensures Orphans([], live) == 0
    ensures Orphans([r] + rows, live) ==
            Orphans(rows, live) + (if r.status == Active && r.deployment !in live then 1 else 0)
  {
    assert ([r] + rows)[1..] == rows;
  }

  // --- The repository's table -----------------------------------------------------

  class ReservationTable {
    var rows: seq<Row>

    constructor ()
      ensures rows == []
    {
      rows := [];
    }

    method ReserveGpus(deployment: string, hotkey: string, node: string, gpus: nat, capacity: Option<int>)
      returns (ok: bool)
      requires Unique(rows)
      modifies this
      ensures (rows, ok) == Reserve(old(rows), Row(deployment, hotkey, node, gpus, Active), capacity)
      ensures Unique(rows)
      ensures ok <==> capacity.None? || HeldExcept(old(rows), node, {deployment}) + gpus <= capacity.value
      ensures ok ==>
                forall m :: Held(rows, m) == HeldExcept(old(rows), m, {deployment}) + (if m == node then gpus else 0)
      ensures !ok ==> rows == old(rows)
    {
      var row := Row(deployment, hotkey, node, gpus, Active);
      if capacity.Some? {
        var already := 0;
        for k := 0 to |rows|
          invariant already + HeldExcept(rows[k..], node, {deployment}) == HeldExcept(rows, node, {deployment})
          invariant unchanged(this)
        {
          assert rows[k..][1..] == rows[k + 1..];
          already := already + Weight(rows[k], node, {deployment});
        }
        if already + gpus > capacity.value {
          return false;
        }
      }
      forall m ensures Held(Put(rows, row), m) == HeldExcept(rows, m, {deployment}) + (if m == node then gpus else 0) {
        PutHeld(rows, row, m);
      }
      PutDeployments(rows, row);
      var i := 0;
      while i < |rows| && rows[i].deployment != deployment
        invariant 0 <= i <= |rows|
        invariant unchanged(this)
        invariant forall k :: 0 <= k < i ==> rows[k].deployment != deployment
      {
        i := i + 1;
      }
      PutAt(rows, row, i);
      rows := if i < |rows| then rows[i := row] else rows + [row];
      return true;
    }

    method ReleaseReservation(deployment: string) returns (flipped: bool)
      modifies this
      ensures rows == ReleaseAll(old(rows), {deployment})
      ensures flipped <==> Active in HeldStatuses(old(rows), deployment)
      ensures flipped <==>
                exists i :: 0 <= i < |old(rows)| && old(rows)[i].deployment == deployment &&
                            old(rows)[i].status == Active
    {
      flipped := false;
      var updated: seq<Row> := [];
      for i := 0 to |rows|
        invariant unchanged(this)
        invariant |updated| == i && forall k :: 0 <= k < i ==> updated[k] == Freed(rows[k], {deployment})
        invariant flipped <==> Active in HeldStatuses(rows[..i], deployment)
      {
        assert rows[..i + 1] == rows[..i] + [rows[i]];
        var row := rows[i];
        if row.deployment == deployment {
          flipped := flipped || row.status == Active;
          row := row.(status := Released);
        }
        updated := updated + [row];
      }
      assert rows[..|rows|] == rows;
      rows := updated;
    }

    /** `live` are the deployments that exist and are neither terminated nor failed. */
    method ReleaseOrphaned(live: set<string>) returns (released: nat)
      modifies this
      ensures rows == ReleaseAll(old(rows), Deployments(old(rows)) - live)
      ensures released == Orphans(old(rows), live)
    {
      released := 0;
      var updated: seq<Row> := [];
      ghost var gone := Deployments(rows) - live;
      for i := 0 to |rows|
        invariant unchanged(this)
        invariant |updated| == i && forall k :: 0 <= k < i ==> updated[k] == Freed(rows[k], gone)
        invariant released + Orphans(rows[i..], live) == Orphans(rows, live)
      {
        assert rows[i..][1..] == rows[i + 1..];
        assert rows[i].deployment in Deployments(rows);
        var row := rows[i];
        if row.status == Active && row.deployment !in live {
          row := row.(status := Released);
          released := released + 1;
        }
        updated := updated + [row];
      }
      rows := updated;
    }

    method ReservedGpusByNode() returns (reserved: map<string, int>)
      ensures reserved == ByNode(rows)
      ensures forall n :: Scheduler.ReservedOn(reserved, n) == Held(rows, n)
    {
      reserved := map[];
      for k := 0 to |rows|
        invariant reserved.Keys == HoldingNodes(rows[..k])
        invariant forall n :: Scheduler.ReservedOn(reserved, n) == Held(rows[..k], n)
      {
        assert rows[..k + 1] == rows[..k] + [rows[k]];
        forall n ensures Held(rows[..k + 1], n) == Held(rows[..k], n) + Weight(rows[k], n, {}) {
          HeldSnoc(rows[..k], rows[k], n, {});
        }
        ghost var before := reserved;
        if rows[k].status == Active {
          var n := rows[k].node;
          reserved := reserved[n := Scheduler.ReservedOn(reserved, n) + rows[k].gpus];
        }
        forall n ensures Scheduler.ReservedOn(reserved, n) == Held(rows[..k + 1], n) {
          assert Scheduler.ReservedOn(before, n) == Held(rows[..k], n);
        }
      }
      assert rows[..|rows|] == rows;
      forall n ensures Scheduler.ReservedOn(ByNode(rows), n) == Held(rows, n) {
        ByNodeIsHeld(rows, n);
      }
      forall n | n in reserved ensures reserved[n] == Held(rows, n) {
        assert Scheduler.ReservedOn(reserved, n) == Held(rows, n);
      }
    }
  }
}
