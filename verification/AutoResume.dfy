/**
  Credit watch: what an owner is committed to pay per hour, and the sweep that
  brings back deployments suspended for an empty balance, oldest first, while the
  balance covers an hour of everything that would then run.
 */
module AutoResume {
  import opened Common
  import opened Lifecycle

  datatype Dep = Dep(
    id: string, owner: string, state: DState,
    charge: nat,               // cents per hour as it stands; 0 when not billed
    costUp: nat,               // cents per hour once it is up with one instance
    resumeOnTopup: bool, reason: string, suspendedAt: int)

  function Get(m: map<string, nat>, owner: string): nat { if owner in m then m[owner] else 0 }

  // --- What each owner is committed to ---------------------------------------------

  const COMMITTED_STATES := [Ready, Pulling, Starting, Scheduled, Pending, Suspended]

  /** Running or coming up: a suspended deployment counts when its lease is live again. */
  predicate Committing(d: Dep, states: set<DState>, live: set<string>) {
    d.owner != "" && d.state in states && (d.state == Suspended ==> d.id in live)
  }

  function Burn(deps: seq<Dep>, states: set<DState>, live: set<string>, owner: string): nat {
    if deps == [] then 0
    else
      var d := deps[|deps| - 1];
      Burn(deps[..|deps| - 1], states, live, owner) +
      (if Committing(d, states, live) && d.owner == owner then d.charge else 0)
  }

  lemma {:induction false} BurnSplits(deps: seq<Dep>, states: set<DState>, state: DState, live: set<string>,
      owner: string)
    requires state !in states
    ensures Burn(deps, states + {state}, live, owner) ==
            Burn(deps, states, live, owner) + Burn(deps, {state}, live, owner)
  {
    if deps != [] {
      BurnSplits(deps[..|deps| - 1], states, state, live, owner);
    }
  }

  lemma {:induction false} BurnNothing(deps: seq<Dep>, live: set<string>, owner: string)
    ensures Burn(deps, {}, live, owner) == 0
  {
    if deps != [] {
      BurnNothing(deps[..|deps| - 1], live, owner);
    }
  }

  lemma BurnSnoc(deps: seq<Dep>, k: nat, states: set<DState>, live: set<string>, owner: string)
    requires k < |deps|
    ensures Burn(deps[..k + 1], states, live, owner) == Burn(deps[..k], states, live, owner) +
            (if Committing(deps[k], states, live) && deps[k].owner == owner then deps[k].charge else 0)
  {
    assert deps[..k + 1][..k] == deps[..k];
  }

  ghost predicate SumsTo(committed: map<string, nat>, before: map<string, nat>, deps: seq<Dep>, states: set<DState>,
      live: set<string>) {
    forall o :: Get(committed, o) == Get(before, o) + Burn(deps, states, live, o)
  }

  /** One state's deployments added to the running totals. */
  method AddState(deps: seq<Dep>, state: DState, live: set<string>, before: map<string, nat>)
    returns (committed: map<string, nat>, resuming: set<string>)
    ensures SumsTo(committed, before, deps, {state}, live)
    ensures resuming == set i | 0 <= i < |deps| && deps[i].state == Suspended == state &&
            Committing(deps[i], {state}, live) :: deps[i].id
  {
    committed, resuming := before, {};
    for k := 0 to |deps|
      invariant SumsTo(committed, before, deps[..k], {state}, live)
      invariant resuming == set i | 0 <= i < k && deps[i].state == Suspended == state &&
                Committing(deps[i], {state}, live) :: deps[i].id
    {
      hide Burn;
      forall o ensures Burn(deps[..k + 1], {state}, live, o) == Burn(deps[..k], {state}, live, o) +
          (if Committing(deps[k], {state}, live) && deps[k].owner == o then deps[k].charge else 0)
      {
        BurnSnoc(deps, k, {state}, live, o);
      }
      var d := deps[k];
      if d.state == state && d.owner != "" {
        if state == Suspended && d.id !in live {
          continue;
        }
        if state == Suspended {
          resuming := resuming + {d.id};
        }
        if d.charge != 0 {
          committed := committed[d.owner := Get(committed, d.owner) + d.charge];
        }
      }
    }
    assert deps[..|deps|] == deps;
  }

  /** Each owner's total is the sum over their committed deployments, each counted once. */
  method CommittedByOwner(deps: seq<Dep>, live: set<string>)
      returns (committed: map<string, nat>, resuming: set<string>)
    ensures forall o :: Get(committed, o) ==
                        Burn(deps, {Ready, Pulling, Starting, Scheduled, Pending, Suspended}, live, o)
    ensures resuming == set i | 0 <= i < |deps| && deps[i].state == Suspended && deps[i].owner != "" &&
            deps[i].id in live :: deps[i].id
  {
    committed, resuming := map[], {};
    ghost var done: set<DState> := {};
    forall o ensures Burn(deps, {}, live, o) == 0 { BurnNothing(deps, live, o); }
    hide Burn;
    for k := 0 to |COMMITTED_STATES|
      invariant done == set i | 0 <= i < k :: COMMITTED_STATES[i]
      invariant SumsTo(committed, map[], deps, done, live)
      invariant resuming == if Suspended in done
                            then set i | 0 <= i < |deps| && deps[i].state == Suspended &&
                                 Committing(deps[i], {Suspended}, live) :: deps[i].id
                            else {}
    {
      var state := COMMITTED_STATES[k];
      assert state !in done;
      var back: set<string>;
      committed, back := AddState(deps, state, live, committed);
      if state == Suspended {
        resuming := back;
      }
      forall o ensures Burn(deps, done + {state}, live, o) == Burn(deps, done, live, o) + Burn(deps, {state}, live, o) {
        BurnSplits(deps, done, state, live, o);
      }
      done := done + {state};
    }
    assert done == Committed() by {
      forall state | state in Committed() ensures state in done { var i := Listed(state); }
    }
  }

  lemma Listed(state: DState) returns (i: nat)
    requires state in Committed()
    ensures i < |COMMITTED_STATES| && COMMITTED_STATES[i] == state
  {
    i := if state == Ready then 0 else if state == Pulling then 1 else if state == Starting then 2
         else if state == Scheduled then 3 else if state == Pending then 4 else 5;
  }

  function Committed(): set<DState> { {Ready, Pulling, Starting, Scheduled, Pending, Suspended} }

  /** What one more deployment adds to its owner's total: its charge, if it is up or
      coming up; waiting for its machine counts, being suspended only with a live lease. */
  lemma BurnCounts(deps: seq<Dep>, d: Dep, live: set<string>, owner: string)
    ensures Burn([], Committed(), live, owner) == 0
    ensures Burn(deps + [d], Committed(), live, owner) ==
            Burn(deps, Committed(), live, owner) +
            (if d.owner == owner != "" && d.state != Draining && d.state != Failed && d.state != Terminated &&
                (d.state != Suspended || d.id in live)
             then d.charge else 0)
  {
    assert (deps + [d])[..|deps|] == deps;
  }

  // --- The sweep -----------------------------------------------------------------------

  /** Cents per hour of the candidates brought back for an owner. */
  function Spent(cs: seq<Dep>, taken: seq<bool>, owner: string): nat
    requires |taken| == |cs|
  {
    if cs == [] then 0
    else
      var last := |cs| - 1;
      Spent(cs[..last], taken[..last], owner) + (if taken[last] && cs[last].owner == owner then cs[last].costUp else 0)
  }

  /** Each candidate is brought back exactly when, at its turn, its owner's balance
      covers an hour of what is committed, what the sweep brought back before it, and
      itself, and the service does not refuse it. */
  ghost predicate InTurn(cs: seq<Dep>, taken: seq<bool>, committed: map<string, nat>, balance: map<string, int>,
      refused: set<string>)
    requires forall i :: 0 <= i < |cs| ==> cs[i].owner in balance
  {
    && |taken| == |cs|
    && forall i :: 0 <= i < |cs| ==>
         (taken[i] <==> cs[i].id !in refused && Affords(cs, taken, i, committed, balance))
  }

  ghost predicate Affords(
      cs: seq<Dep>, taken: seq<bool>, i: int, committed: map<string, nat>, balance: map<string, int>)
    requires |taken| == |cs| && 0 <= i < |cs| && cs[i].owner in balance
  {
    balance[cs[i].owner] >= Get(committed, cs[i].owner) + Spent(cs[..i], taken[..i], cs[i].owner) + cs[i].costUp
  }

  lemma SpentSnoc(cs: seq<Dep>, taken: seq<bool>, c: Dep, t: bool, owner: string)
    requires |taken| == |cs|
    ensures Spent(cs + [c], taken + [t], owner) ==
            Spent(cs, taken, owner) + (if t && c.owner == owner then c.costUp else 0)
  {
    assert (cs + [c])[..|cs|] == cs && (taken + [t])[..|taken|] == taken;
  }

  lemma SpentSnocAll(cs: seq<Dep>, taken: seq<bool>, c: Dep, t: bool)
    requires |taken| == |cs|
    ensures forall o :: Spent(cs + [c], taken + [t], o) ==
              Spent(cs, taken, o) + (if t && c.owner == o then c.costUp else 0)
  {
    forall o ensures Spent(cs + [c], taken + [t], o) ==
              Spent(cs, taken, o) + (if t && c.owner == o then c.costUp else 0) {
      SpentSnoc(cs, taken, c, t, o);
    }
  }

  lemma {:induction false} SpentGrows(cs: seq<Dep>, taken: seq<bool>, i: nat, owner: string)
    requires |taken| == |cs| && i < |cs|
    ensures Spent(cs[..i], taken[..i], owner) + (if taken[i] && cs[i].owner == owner then cs[i].costUp else 0) <=
            Spent(cs, taken, owner)
  {
    var last := |cs| - 1;
    if i < last {
      SpentGrows(cs[..last], taken[..last], i, owner);
      assert cs[..last][..i] == cs[..i] && taken[..last][..i] == taken[..i];
    }
  }

  ghost predicate TakesSome(cs: seq<Dep>, taken: seq<bool>, owner: string)
    requires |taken| == |cs|
  {
    exists i :: 0 <= i < |cs| && taken[i] && cs[i].owner == owner
  }

  lemma InTurnPrefix(
    cs: seq<Dep>, taken: seq<bool>, committed: map<string, nat>, balance: map<string, int>, refused: set<string>)
    requires forall i :: 0 <= i < |cs| ==> cs[i].owner in balance
    requires InTurn(cs, taken, committed, balance, refused) && cs != []
    ensures InTurn(cs[..|cs| - 1], taken[..|cs| - 1], committed, balance, refused)
  {
    hide Spent;
    var front, t := cs[..|cs| - 1], taken[..|cs| - 1];
    forall j | 0 <= j < |front| ensures Affords(front, t, j, committed, balance) <==>
           Affords(cs, taken, j, committed, balance) {
      assert front[..j] == cs[..j] && t[..j] == taken[..j];
    }
  }

  /** Sound: an owner the sweep brought anything back for can pay an hour of it all. */
  lemma {:induction false} SweepIsSound(
    cs: seq<Dep>, taken: seq<bool>, committed: map<string, nat>, balance: map<string, int>, refused: set<string>,
      owner: string)
    requires forall i :: 0 <= i < |cs| ==> cs[i].owner in balance
    requires InTurn(cs, taken, committed, balance, refused) && TakesSome(cs, taken, owner)
    ensures owner in balance && Get(committed, owner) + Spent(cs, taken, owner) <= balance[owner]
  {
    var last := |cs| - 1;
    if !(taken[last] && cs[last].owner == owner) {
      var front, t := cs[..last], taken[..last];
      var i :| 0 <= i < |cs| && taken[i] && cs[i].owner == owner;
      assert front[i] == cs[i] && t[i] == taken[i];
      InTurnPrefix(cs, taken, committed, balance, refused);
      hide InTurn;
      SweepIsSound(front, t, committed, balance, refused, owner);
    } else {
      assert Affords(cs, taken, last, committed, balance);
    }
  }

  /** Maximal: nothing it skipped, unless the service refused it, would still fit. */
  lemma SweepIsMaximal(
    cs: seq<Dep>, taken: seq<bool>, committed: map<string, nat>, balance: map<string, int>, refused: set<string>,
      i: nat)
    requires forall i :: 0 <= i < |cs| ==> cs[i].owner in balance
    requires InTurn(cs, taken, committed, balance, refused)
    requires i < |cs| && !taken[i] && cs[i].id !in refused
    ensures balance[cs[i].owner] < Get(committed, cs[i].owner) + Spent(cs, taken, cs[i].owner) + cs[i].costUp
  {
    SpentGrows(cs, taken, i, cs[i].owner);
  }

  /** A choice an owner could afford, leaving out what the service refuses. */
  ghost predicate Affordable(cs: seq<Dep>, choice: seq<bool>, committed: map<string, nat>, balance: map<string, int>,
      refused: set<string>) {
    && |choice| == |cs|
    && (forall i :: 0 <= i < |cs| && choice[i] ==> cs[i].id !in refused)
    && (forall o :: TakesSome(cs, choice, o) ==> o in balance && Get(committed, o) + Spent(cs, choice, o) <= balance[o])
  }

  /** Oldest first, said without reference to the sweep: against any other affordable
      choice, at the first candidate they disagree on it is the sweep that brings it
      back. */
  lemma SweepPrefersOldest(
    cs: seq<Dep>, taken: seq<bool>, choice: seq<bool>, committed: map<string, nat>, balance: map<string, int>,
      refused: set<string>, i: nat)
    requires forall i :: 0 <= i < |cs| ==> cs[i].owner in balance
    requires InTurn(cs, taken, committed, balance, refused) && Affordable(cs, choice, committed, balance, refused)
    requires i < |cs| && taken[..i] == choice[..i] && taken[i] != choice[i]
    ensures taken[i]
  {
    if choice[i] {
      var o := cs[i].owner;
      assert TakesSome(cs, choice, o);
      SpentGrows(cs, choice, i, o);
      assert Affords(cs, taken, i, committed, balance);
    }
  }

  /** The first k candidates have been decided, each in its turn. */
  ghost predicate SweptTo(
      cs: seq<Dep>, k: nat, taken: seq<bool>, resumed: seq<string>, committed: map<string, nat>,
      before: map<string, nat>, balance: map<string, int>, refused: set<string>)
    requires forall i :: 0 <= i < |cs| ==> cs[i].owner in balance
  {
    && |taken| == k <= |cs| && resumed == Names(cs[..k], taken)
    && (forall o :: Get(committed, o) == Get(before, o) + Spent(cs[..k], taken, o))
    && (forall i :: 0 <= i < k ==>
          (taken[i] <==> cs[i].id !in refused && AffordsBefore(cs, taken[..i], i, before, balance)))
  }

  lemma SweepStep(
      cs: seq<Dep>, k: nat, taken: seq<bool>, resumed: seq<string>, committed: map<string, nat>,
      before: map<string, nat>, balance: map<string, int>, refused: set<string>, t: bool)
    requires forall i :: 0 <= i < |cs| ==> cs[i].owner in balance
    requires k < |cs| && SweptTo(cs, k, taken, resumed, committed, before, balance, refused)
    requires var c := cs[k]; t <==> c.id !in refused && balance[c.owner] >= Get(committed, c.owner) + c.costUp
    ensures var c := cs[k];
            SweptTo(cs, k + 1, taken + [t], if t then resumed + [c.id] else resumed,
                    if t then committed[c.owner := Get(committed, c.owner) + c.costUp] else committed,
                    before, balance, refused)
  {
    hide Spent, Names, AffordsBefore;
    var c := cs[k];
    AffordsIs(cs, taken, k, before, balance);
    SpentSnocAll(cs[..k], taken, c, t);
    NamesSnoc(cs[..k], taken, c, t);
    assert cs[..k + 1] == cs[..k] + [c];
    assert (taken + [t])[..k] == taken && forall i :: 0 <= i < k ==> (taken + [t])[..i] == taken[..i];
  }

  lemma SweepEnds(
      cs: seq<Dep>, taken: seq<bool>, resumed: seq<string>, committed: map<string, nat>,
      before: map<string, nat>, balance: map<string, int>, refused: set<string>)
    requires forall i :: 0 <= i < |cs| ==> cs[i].owner in balance
    requires SweptTo(cs, |cs|, taken, resumed, committed, before, balance, refused)
    ensures InTurn(cs, taken, before, balance, refused) && resumed == Names(cs, taken)
    ensures forall o :: Get(committed, o) == Get(before, o) + Spent(cs, taken, o)
  {
    hide Spent, Names;
    assert cs[..|cs|] == cs;
    assert forall i :: 0 <= i < |cs| ==>
           (Affords(cs, taken, i, before, balance) <==> AffordsBefore(cs, taken[..i], i, before, balance));
  }

  method Sweep(cs: seq<Dep>, before: map<string, nat>, balance: map<string, int>, refused: set<string>)
    returns (taken: seq<bool>, resumed: seq<string>, committed: map<string, nat>)
    requires forall i :: 0 <= i < |cs| ==> cs[i].owner in balance
    ensures InTurn(cs, taken, before, balance, refused)
    ensures forall o :: Get(committed, o) == Get(before, o) + Spent(cs, taken, o)
    ensures resumed == Names(cs, taken)
  {
    taken, resumed, committed := [], [], before;
    for k := 0 to |cs|
      invariant SweptTo(cs, k, taken, resumed, committed, before, balance, refused)
    {
      var c := cs[k];
      var t := true;
      if balance[c.owner] < Get(committed, c.owner) + c.costUp {
        t := false;
      } else if c.id in refused {
        t := false;
      }
      SweepStep(cs, k, taken, resumed, committed, before, balance, refused, t);
      hide SweptTo;
      if t {
        resumed := resumed + [c.id];
        committed := committed[c.owner := Get(committed, c.owner) + c.costUp];
      }
      taken := taken + [t];
    }
    SweepEnds(cs, taken, resumed, committed, before, balance, refused);
  }

  ghost predicate AffordsBefore(cs: seq<Dep>, earlier: seq<bool>, i: int, committed: map<string, nat>,
      balance: map<string, int>)
    requires 0 <= i == |earlier| && i < |cs| && cs[i].owner in balance
  {
    balance[cs[i].owner] >= Get(committed, cs[i].owner) + Spent(cs[..i], earlier, cs[i].owner) + cs[i].costUp
  }

  lemma AffordsIs(cs: seq<Dep>, earlier: seq<bool>, i: int, committed: map<string, nat>, balance: map<string, int>)
    requires 0 <= i == |earlier| && i < |cs| && cs[i].owner in balance
    ensures AffordsBefore(cs, earlier, i, committed, balance) <==>
            balance[cs[i].owner] >= Get(committed, cs[i].owner) + Spent(cs[..i], earlier, cs[i].owner) + cs[i].costUp
  {
  }

  function Names(cs: seq<Dep>, taken: seq<bool>): seq<string>
    requires |taken| == |cs|
  {
    if cs == [] then []
    else Names(cs[..|cs| - 1], taken[..|cs| - 1]) + (if taken[|cs| - 1] then [cs[|cs| - 1].id] else [])
  }

  lemma NamesSnoc(cs: seq<Dep>, taken: seq<bool>, c: Dep, t: bool)
    requires |taken| == |cs|
    ensures Names(cs + [c], taken + [t]) == if t then Names(cs, taken) + [c.id] else Names(cs, taken)
  {
    assert (cs + [c])[..|cs|] == cs && (taken + [t])[..|taken|] == taken;
  }

  // --- The whole of auto_resume_once -----------------------------------------------------

  predicate Flagged(d: Dep) { d.state == Suspended && d.owner != "" && d.resumeOnTopup && d.reason == "balance" }

  function Insert(c: Dep, s: seq<Dep>): seq<Dep> {
    if s == [] || s[|s| - 1].suspendedAt <= c.suspendedAt then s + [c] else Insert(c, s[..|s| - 1]) + [s[|s| - 1]]
  }

  predicate OldestFirst(s: seq<Dep>) { forall i, j :: 0 <= i < j < |s| ==> s[i].suspendedAt <= s[j].suspendedAt }

  lemma {:induction false} InsertKeepsOrder(c: Dep, s: seq<Dep>)
    requires OldestFirst(s)
    ensures OldestFirst(Insert(c, s))
    ensures forall d :: d in Insert(c, s) <==> d in s || d == c
    ensures forall k :: 0 <= k < |Insert(c, s)| && s != [] && s[|s| - 1].suspendedAt >= c.suspendedAt ==>
              Insert(c, s)[k].suspendedAt <= s[|s| - 1].suspendedAt
  {
    if s != [] && s[|s| - 1].suspendedAt > c.suspendedAt {
      var front, last := s[..|s| - 1], s[|s| - 1];
      InsertKeepsOrder(c, front);
      assert s == front + [last];
      forall k | 0 <= k < |Insert(c, front)| ensures Insert(c, front)[k].suspendedAt <= last.suspendedAt {
        assert Insert(c, front)[k] in front || Insert(c, front)[k] == c;
      }
    }
  }

  /** The flagged deployments that are not already coming back. */
  function Waiting(deps: seq<Dep>, resuming: set<string>): seq<Dep> {
    if deps == [] then []
    else
      var d := deps[|deps| - 1];
      Waiting(deps[..|deps| - 1], resuming) + (if Flagged(d) && d.id !in resuming then [d] else [])
  }

  lemma {:induction false} InsertAdds(c: Dep, s: seq<Dep>)
    ensures multiset(Insert(c, s)) == multiset(s) + multiset{c}
  {
    if s != [] && s[|s| - 1].suspendedAt > c.suspendedAt {
      InsertAdds(c, s[..|s| - 1]);
      assert s == s[..|s| - 1] + [s[|s| - 1]];
    }
  }

  lemma {:induction false} WaitingAre(deps: seq<Dep>, resuming: set<string>)
    ensures forall d :: d in Waiting(deps, resuming) <==> d in deps && Flagged(d) && d.id !in resuming
  {
    if deps != [] {
      WaitingAre(deps[..|deps| - 1], resuming);
      assert deps == deps[..|deps| - 1] + [deps[|deps| - 1]];
    }
  }

  /** The candidates: flagged, not already coming back, each as often as it was
      listed, oldest suspension first. */
  method Candidates(deps: seq<Dep>, resuming: set<string>) returns (cs: seq<Dep>)
    ensures OldestFirst(cs) && multiset(cs) == multiset(Waiting(deps, resuming))
    ensures forall d :: d in cs <==>
                        && d in deps && d.state == Suspended && d.owner != "" && d.resumeOnTopup
                        && d.reason == "balance" && d.id !in resuming
  {
    cs := [];
    for k := 0 to |deps|
      invariant OldestFirst(cs) && multiset(cs) == multiset(Waiting(deps[..k], resuming))
    {
      assert deps[..k + 1][..k] == deps[..k];
      hide Flagged, Insert, OldestFirst;
      if Flagged(deps[k]) && deps[k].id !in resuming {
        InsertKeepsOrder(deps[k], cs);
        InsertAdds(deps[k], cs);
        cs := Insert(deps[k], cs);
      }
    }
    assert deps[..|deps|] == deps;
    WaitingAre(deps, resuming);
    SameMembers(cs, Waiting(deps, resuming));
  }

  lemma SameMembers(a: seq<Dep>, b: seq<Dep>)
    requires multiset(a) == multiset(b)
    ensures forall d :: d in a <==> d in b
  {
    assert forall d :: d in a <==> d in multiset(a);
    assert forall d :: d in b <==> d in multiset(b);
  }

  /** With every owner's balance fixed, after the sweep an owner it resumed anything
      for is committed to at most their balance, and no candidate it left, unless
      refused, would still fit. */
  method AutoResumeOnce(deps: seq<Dep>, live: set<string>, balance: map<string, int>, refused: set<string>)
    returns (resumed: seq<string>, cs: seq<Dep>, taken: seq<bool>)
    requires forall i :: 0 <= i < |deps| && deps[i].owner != "" ==> deps[i].owner in balance
    ensures OldestFirst(cs) && |taken| == |cs| && resumed == Names(cs, taken)
    ensures forall d :: d in cs <==>
                        && d in deps && d.state == Suspended && d.owner != "" && d.resumeOnTopup
                        && d.reason == "balance" && d.id !in live
    ensures forall i :: 0 <= i < |cs| && taken[i] ==>
              var o := cs[i].owner; o in balance && Burn(deps, Committed(), live, o) + Spent(cs, taken, o) <= balance[o]
    ensures forall i :: 0 <= i < |cs| && !taken[i] && cs[i].id !in refused ==>
              var o := cs[i].owner;
              o in balance && balance[o] < Burn(deps, Committed(), live, o) + Spent(cs, taken, o) + cs[i].costUp
  {
    hide Burn, Spent;
    var committed, resuming := CommittedByOwner(deps, live);
    cs := Candidates(deps, resuming);
    NotComingBack(deps, live, resuming, cs);
    forall i | 0 <= i < |cs| ensures cs[i].owner in balance {
      assert cs[i] in cs;
      var k :| 0 <= k < |deps| && deps[k] == cs[i];
    }
    var after;
    taken, resumed, after := Sweep(cs, committed, balance, refused);
    forall i | 0 <= i < |cs| && taken[i]
      ensures Burn(deps, Committed(), live, cs[i].owner) + Spent(cs, taken, cs[i].owner) <= balance[cs[i].owner]
    {
      assert TakesSome(cs, taken, cs[i].owner);
      SweepIsSound(cs, taken, committed, balance, refused, cs[i].owner);
    }
    forall i | 0 <= i < |cs| && !taken[i] && cs[i].id !in refused
      ensures balance[cs[i].owner] < Burn(deps, Committed(), live, cs[i].owner) + Spent(cs, taken, cs[i].owner) +
              cs[i].costUp
    {
      SweepIsMaximal(cs, taken, committed, balance, refused, i);
    }
  }

  lemma NotComingBack(deps: seq<Dep>, live: set<string>, resuming: set<string>, cs: seq<Dep>)
    requires resuming == set i | 0 <= i < |deps| && deps[i].state == Suspended && deps[i].owner != "" &&
             deps[i].id in live :: deps[i].id
    requires forall d :: d in cs <==> d in deps && Flagged(d) && d.id !in resuming
    ensures forall d :: d in cs <==> d in deps && Flagged(d) && d.id !in live
  {
    forall d | d in deps && Flagged(d) ensures d.id in resuming <==> d.id in live {
      var k :| 0 <= k < |deps| && deps[k] == d;
    }
  }
}
