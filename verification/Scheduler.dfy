/**
  The placement policy of the control plane: which GPUs of a node may be handed
  out, which nodes can take a workload, and which of them is picked.
 */
module Scheduler {
  import opened Common

  type NonNegative = r: real | r >= 0.0

  datatype Node = Node(
    id: string, hotkey: string, gpuModel: string,
    gpuCount: nat,           // GPUs physically in the machine
    available: int,          // what its last heartbeat reported free
    vramPerGpu: nat, cpuCores: nat, memoryGb: nat,
    kinds: set<string>,      // the parsed workload_kinds label; empty accepts all
    health: real, reliability: real, performance: real, hourlyCost: NonNegative)

  datatype Workload = Workload(
    id: string, kind: string, gpus: nat,
    minVramPerGpu: nat, cpuCores: nat, memoryGb: nat, models: seq<string>)

  datatype Ranked = Ranked(node: Node, score: real)

  datatype Lease = Lease(deployment: string, workload: string, hotkey: string, node: string)

  // --- GPU model names ---------------------------------------------------------

  predicate IsAlnum(c: char) { 'a' <= c <= 'z' || 'A' <= c <= 'Z' || '0' <= c <= '9' }

  /** The canonical GPU id: separators dropped, lower case (over ASCII). */
  function Normalize(raw: string): string {
    if raw == [] then []
    else (if IsAlnum(raw[0]) then [LowerChar(raw[0])] else []) + Normalize(raw[1..])
  }

  lemma {:induction false} NormalizeIsFinal(a: string)
    ensures Normalize(Normalize(a)) == Normalize(a)
  {
    if a != [] {
      NormalizeIsFinal(a[1..]);
      if IsAlnum(a[0]) {
        assert Normalize(a)[1..] == Normalize(a[1..]);
      } else {
        assert Normalize(a) == Normalize(a[1..]);
      }
    }
  }

  lemma {:induction false} NormalizeDrops(a: string, sep: char, b: string)
    requires !('a' <= sep <= 'z' || 'A' <= sep <= 'Z' || '0' <= sep <= '9')
    ensures Normalize(a + [sep] + b) == Normalize(a + b)
  {
    if a == [] {
      assert a + [sep] + b == [sep] + b && a + b == b;
    } else {
      NormalizeDrops(a[1..], sep, b);
      assert a + [sep] + b == [a[0]] + (a[1..] + [sep] + b);
      assert a + b == [a[0]] + (a[1..] + b);
    }
  }

  /** Spelling does not matter twice: a canonical id is its own canonical id, and
      dropping or inserting a separator anywhere leaves the id alone. */
  lemma NormalizeIgnoresSpelling(a: string, sep: char, b: string)
    requires !('a' <= sep <= 'z' || 'A' <= sep <= 'Z' || '0' <= sep <= '9')
    ensures Normalize(Normalize(a)) == Normalize(a)
    ensures Normalize(a + [sep] + b) == Normalize(a + b)
  {
    NormalizeIsFinal(a);
    NormalizeDrops(a, sep, b);
  }

  /** Nothing else is ignored: small letters and digits are kept as they are, ... */
  lemma {:induction false} NormalizeKeeps(a: string)
    requires forall k :: 0 <= k < |a| ==> 'a' <= a[k] <= 'z' || '0' <= a[k] <= '9'
    ensures Normalize(a) == a
  {
    if a != [] {
      NormalizeKeeps(a[1..]);
      assert a == [a[0]] + a[1..];
    }
  }

  /** ... and a capital letter counts as its small one. */
  lemma {:induction false} NormalizeFolds(a: string, c: char, b: string)
    requires 'A' <= c <= 'Z'
    ensures Normalize(a + [c] + b) == Normalize(a + [c - 'A' + 'a'] + b)
  {
    var small := c - 'A' + 'a';
    if a == [] {
      assert a + [c] + b == [c] + b && a + [small] + b == [small] + b;
    } else {
      NormalizeFolds(a[1..], c, b);
      assert a + [c] + b == [a[0]] + (a[1..] + [c] + b);
      assert a + [small] + b == [a[0]] + (a[1..] + [small] + b);
    }
  }

  // --- Which nodes can take a workload -----------------------------------------

  function ReservedOn(reserved: map<string, int>, node: string): int {
    if node in reserved then reserved[node] else 0
  }

  /** GPUs the scheduler may hand out: the stricter of the heartbeat's count and
      the physical count minus committed reservations. */
  function EffectiveAvailable(node: Node, reserved: map<string, int>): int {
    Min(node.available, node.gpuCount - ReservedOn(reserved, node.id))
  }

  /** Every requirement of a workload other than the number of free GPUs. */
  predicate Compatible(w: Workload, n: Node) {
    && (n.kinds == {} || w.kind in n.kinds)
    && n.vramPerGpu >= w.minVramPerGpu
    && n.cpuCores >= w.cpuCores
    && n.memoryGb >= w.memoryGb
    && (w.models == [] || exists i :: 0 <= i < |w.models| && Normalize(w.models[i]) == Normalize(n.gpuModel))
  }

  predicate Feasible(w: Workload, n: Node, reserved: map<string, int>) {
    Compatible(w, n) && EffectiveAvailable(n, reserved) >= w.gpus
  }

  function Score(n: Node): real {
    n.health * 0.4 + n.reliability * 0.3 + n.performance * 0.2 + (1.0 / (1.0 + n.hourlyCost)) * 0.1
  }

  /** What the score weighs: each of the three measures by itself, and nothing else but
      the cost, of which a node of no other merit has a tenth of 1 / (1 + cost). */
  lemma ScoreWeighs(n: Node, more: real)
    ensures Score(n.(health := n.health + more)) == Score(n) + 0.4 * more
    ensures Score(n.(reliability := n.reliability + more)) == Score(n) + 0.3 * more
    ensures Score(n.(performance := n.performance + more)) == Score(n) + 0.2 * more
    ensures Score(n.(health := 0.0, reliability := 0.0, performance := 0.0)) * (1.0 + n.hourlyCost) == 0.1
  {
  }

  // --- Ranking -------------------------------------------------------------------

  function Candidates(w: Workload, nodes: seq<Node>, reserved: map<string, int>): seq<Ranked> {
    if nodes == [] then []
    else
      var n := nodes[|nodes| - 1];
      Candidates(w, nodes[..|nodes| - 1], reserved) + (if Feasible(w, n, reserved) then [Ranked(n, Score(n))] else [])
  }

  /** Insert a later candidate behind every earlier one that scores at least as much. */
  function Insert(x: Ranked, s: seq<Ranked>): seq<Ranked> {
    if s == [] then [x]
    else if s[0].score < x.score then [x] + s
    else [s[0]] + Insert(x, s[1..])
  }

  /** A stable sort by falling score. */
  function SortFalling(s: seq<Ranked>): seq<Ranked> {
    if s == [] then [] else Insert(s[|s| - 1], SortFalling(s[..|s| - 1]))
  }

  predicate Falling(s: seq<Ranked>) {
    forall i, j :: 0 <= i < j < |s| ==> s[i].score >= s[j].score
  }

  predicate AtMost(s: seq<Ranked>, bound: real) {
    forall k :: 0 <= k < |s| ==> s[k].score <= bound
  }

  lemma {:induction false} InsertAtMost(x: Ranked, s: seq<Ranked>, bound: real)
    requires AtMost(s, bound) && x.score <= bound
    ensures AtMost(Insert(x, s), bound)
  {
    if s != [] && s[0].score >= x.score {
      InsertAtMost(x, s[1..], bound);
    }
  }

  lemma {:induction false} InsertFalling(x: Ranked, s: seq<Ranked>)
    requires Falling(s)
    ensures Falling(Insert(x, s))
  {
    if s != [] && s[0].score >= x.score {
      InsertFalling(x, s[1..]);
      InsertAtMost(x, s[1..], s[0].score);
    }
  }

  lemma {:induction false} InsertAdds(x: Ranked, s: seq<Ranked>)
    ensures multiset(Insert(x, s)) == multiset(s) + multiset{x}
  {
    if s != [] && s[0].score >= x.score {
      InsertAdds(x, s[1..]);
      assert s == [s[0]] + s[1..];
    }
  }

  lemma {:induction false} SortFallingSorts(s: seq<Ranked>)
    ensures Falling(SortFalling(s))
    ensures multiset(SortFalling(s)) == multiset(s)
  {
    if s != [] {
      var front := s[..|s| - 1];
      SortFallingSorts(front);
      InsertFalling(s[|s| - 1], SortFalling(front));
      InsertAdds(s[|s| - 1], SortFalling(front));
      assert s == front + [s[|s| - 1]];
    }
  }

  /** The candidates with one score, in order. */
  function OfScore(s: seq<Ranked>, score: real): seq<Ranked> {
    if s == [] then []
    else (if s[0].score == score then [s[0]] else []) + OfScore(s[1..], score)
  }

  lemma {:induction false} OfScoreSnoc(s: seq<Ranked>, x: Ranked, score: real)
    ensures OfScore(s + [x], score) == OfScore(s, score) + (if x.score == score then [x] else [])
  {
    if s == [] {
      assert [x][1..] == [] && s + [x] == [x];
    } else {
      assert (s + [x])[1..] == s[1..] + [x];
      OfScoreSnoc(s[1..], x, score);
      var head := if s[0].score == score then [s[0]] else [];
      var last := if x.score == score then [x] else [];
      assert head + (OfScore(s[1..], score) + last) == head + OfScore(s[1..], score) + last;
    }
  }

  lemma {:induction false} OfScoreBelow(s: seq<Ranked>, score: real)
    requires forall k :: 0 <= k < |s| ==> s[k].score < score
    ensures OfScore(s, score) == []
  {
    if s != [] {
      OfScoreBelow(s[1..], score);
    }
  }

  lemma {:induction false} InsertIsStable(x: Ranked, s: seq<Ranked>, score: real)
    requires Falling(s)
    ensures OfScore(Insert(x, s), score) == OfScore(s, score) + (if x.score == score then [x] else [])
  {
    if s == [] {
      assert [x][1..] == [];
    } else if s[0].score < x.score {
      assert ([x] + s)[1..] == s;
      if x.score == score {
        OfScoreBelow(s, score);
      }
    } else {
      InsertIsStable(x, s[1..], score);
      assert ([s[0]] + Insert(x, s[1..]))[1..] == Insert(x, s[1..]);
    }
  }

  /** Candidates of one score stay in the order they were listed in. */
  lemma {:induction false} SortIsStable(s: seq<Ranked>, score: real)
    ensures OfScore(SortFalling(s), score) == OfScore(s, score)
  {
    hide OfScore, Insert, Falling;
    if s != [] {
      var front, x := s[..|s| - 1], s[|s| - 1];
      SortIsStable(front, score);
      SortFallingSorts(front);
      InsertIsStable(x, SortFalling(front), score);
      OfScoreSnoc(front, x, score);
      assert s == front + [x];
    }
  }

  function Rank(w: Workload, nodes: seq<Node>, reserved: map<string, int>): seq<Ranked> {
    SortFalling(Candidates(w, nodes, reserved))
  }

  method RankNodes(w: Workload, nodes: seq<Node>, reserved: map<string, int>) returns (ranked: seq<Ranked>)
    ensures Falling(ranked)
    ensures multiset(ranked) == multiset(Candidates(w, nodes, reserved))
    ensures forall score :: OfScore(ranked, score) == OfScore(Candidates(w, nodes, reserved), score)
    ensures ranked == Rank(w, nodes, reserved)
  {
    var candidates: seq<Ranked> := [];
    for k := 0 to |nodes|
      invariant candidates == Candidates(w, nodes[..k], reserved)
    {
      assert nodes[..k + 1][..k] == nodes[..k];
      if Feasible(w, nodes[k], reserved) {
        candidates := candidates + [Ranked(nodes[k], Score(nodes[k]))];
      }
    }
    assert nodes[..|nodes|] == nodes;
    ranked := SortFalling(candidates);
    SortFallingSorts(candidates);
    forall score ensures OfScore(ranked, score) == OfScore(candidates, score) { SortIsStable(candidates, score); }
  }

  /** What is ranked has all that is asked for, and what is not lacks some of it. */
  lemma RankedMeet(w: Workload, nodes: seq<Node>, reserved: map<string, int>)
    ensures forall k :: 0 <= k < |Rank(w, nodes, reserved)| ==>
              var n := Rank(w, nodes, reserved)[k].node;
              && n in nodes
              && n.available >= w.gpus && n.gpuCount - (if n.id in reserved then reserved[n.id] else 0) >= w.gpus
              && n.vramPerGpu >= w.minVramPerGpu && n.cpuCores >= w.cpuCores && n.memoryGb >= w.memoryGb
              && (n.kinds == {} || w.kind in n.kinds)
              && (w.models == [] || exists m :: 0 <= m < |w.models| && Normalize(w.models[m]) == Normalize(n.gpuModel))
    ensures forall j :: 0 <= j < |nodes| ==>
              var n := nodes[j];
              || Ranked(n, Score(n)) in Rank(w, nodes, reserved)
              || n.available < w.gpus || n.gpuCount - (if n.id in reserved then reserved[n.id] else 0) < w.gpus
              || n.vramPerGpu < w.minVramPerGpu || n.cpuCores < w.cpuCores || n.memoryGb < w.memoryGb
              || (n.kinds != {} && w.kind !in n.kinds)
              || (w.models != [] && forall m :: 0 <= m < |w.models| ==> Normalize(w.models[m]) != Normalize(n.gpuModel))
  {
    var ranked := Rank(w, nodes, reserved);
    RankedAre(w, nodes, reserved);
    hide Score, Normalize, Rank;
    forall k | 0 <= k < |ranked| ensures ranked[k].node in nodes && Feasible(w, ranked[k].node, reserved) {
      assert ranked[k] in ranked;
    }
    forall j | 0 <= j < |nodes| && Feasible(w, nodes[j], reserved)
      ensures Ranked(nodes[j], Score(nodes[j])) in ranked
    {
    }
  }

  lemma {:induction false} CandidatesAre(w: Workload, nodes: seq<Node>, reserved: map<string, int>, x: Ranked)
    ensures x in Candidates(w, nodes, reserved) <==>
            x.node in nodes && Feasible(w, x.node, reserved) && x.score == Score(x.node)
  {
    hide Score, Feasible;
    if nodes != [] {
      var front, n := nodes[..|nodes| - 1], nodes[|nodes| - 1];
      CandidatesAre(w, front, reserved, x);
      assert nodes == front + [n];
    }
  }

  lemma RankedAre(w: Workload, nodes: seq<Node>, reserved: map<string, int>)
    ensures forall x :: x in Rank(w, nodes, reserved) <==>
                        x.node in nodes && Feasible(w, x.node, reserved) && x.score == Score(x.node)
  {
    var c := Candidates(w, nodes, reserved);
    SortFallingSorts(c);
    hide Score, Feasible, Candidates, SortFalling;
    forall x ensures x in Rank(w, nodes, reserved) <==>
                     x.node in nodes && Feasible(w, x.node, reserved) && x.score == Score(x.node)
    {
      CandidatesAre(w, nodes, reserved, x);
      assert x in Rank(w, nodes, reserved) <==> x in multiset(SortFalling(c));
      assert x in c <==> x in multiset(c);
    }
  }

  // --- The choice -----------------------------------------------------------------

  /** nodes[i] is the first of the best: it can take the workload, nothing that can
      scores more, and nothing listed before it scores as much. */
  predicate FirstBest(w: Workload, nodes: seq<Node>, reserved: map<string, int>, i: int) {
    && 0 <= i < |nodes|
    && Feasible(w, nodes[i], reserved)
    && (forall j :: 0 <= j < |nodes| && Feasible(w, nodes[j], reserved) ==> Score(nodes[j]) <= Score(nodes[i]))
    && (forall j :: 0 <= j < i && Feasible(w, nodes[j], reserved) ==> Score(nodes[j]) < Score(nodes[i]))
  }

  function Choose(w: Workload, nodes: seq<Node>, reserved: map<string, int>): Option<Node> {
    var ranked := Rank(w, nodes, reserved);
    if ranked == [] then None else Some(ranked[0].node)
  }

  lemma RankSnoc(w: Workload, front: seq<Node>, n: Node, reserved: map<string, int>)
    ensures Rank(w, front + [n], reserved) ==
            if Feasible(w, n, reserved) then Insert(Ranked(n, Score(n)), Rank(w, front, reserved))
            else Rank(w, front, reserved)
  {
    var c := Candidates(w, front, reserved);
    assert (front + [n])[..|front|] == front;
    if Feasible(w, n, reserved) {
      var x := Ranked(n, Score(n));
      assert Candidates(w, front + [n], reserved) == c + [x];
      assert (c + [x])[..|c|] == c;
    } else {
      assert Candidates(w, front + [n], reserved) == c;
    }
  }

  lemma {:induction false} CandidatesCarryScores(w: Workload, nodes: seq<Node>, reserved: map<string, int>, x: Ranked)
    requires x in Candidates(w, nodes, reserved)
    ensures x.score == Score(x.node)
  {
    hide Score, Feasible;
    var front := nodes[..|nodes| - 1];
    if x in Candidates(w, front, reserved) {
      CandidatesCarryScores(w, front, reserved, x);
    }
  }

  lemma HeadCarriesScore(w: Workload, nodes: seq<Node>, reserved: map<string, int>)
    ensures Rank(w, nodes, reserved) != [] ==>
            Rank(w, nodes, reserved)[0].score == Score(Rank(w, nodes, reserved)[0].node)
  {
    hide Score, Candidates, SortFalling;
    var c := Candidates(w, nodes, reserved);
    SortFallingSorts(c);
    if Rank(w, nodes, reserved) != [] {
      assert Rank(w, nodes, reserved)[0] in multiset(c);
      CandidatesCarryScores(w, nodes, reserved, Rank(w, nodes, reserved)[0]);
    }
  }

  predicate NoneFeasible(w: Workload, nodes: seq<Node>, reserved: map<string, int>) {
    forall j :: 0 <= j < |nodes| ==> !Feasible(w, nodes[j], reserved)
  }

  /** A further node takes over exactly when it can take the workload and beats the
      best so far. */
  lemma FirstBestSnoc(w: Workload, front: seq<Node>, n: Node, reserved: map<string, int>, i: int)
    requires NoneFeasible(w, front, reserved) || FirstBest(w, front, reserved, i)
    ensures var takesOver := Feasible(w, n, reserved) &&
            (NoneFeasible(w, front, reserved) || Score(front[i]) < Score(n));
            if takesOver then FirstBest(w, front + [n], reserved, |front|)
            else if NoneFeasible(w, front, reserved) then NoneFeasible(w, front + [n], reserved)
            else FirstBest(w, front + [n], reserved, i)
  {
    hide Score, Feasible;
    var all := front + [n];
    assert all[|front|] == n && forall j :: 0 <= j < |front| ==> all[j] == front[j];
  }

  /** The head of the ranking is the first of the best, and there is none exactly
      when no node can take the workload. */
  lemma {:induction false} ChooseFirstBest(w: Workload, nodes: seq<Node>, reserved: map<string, int>) returns (i: int)
    ensures Choose(w, nodes, reserved).None? <==> NoneFeasible(w, nodes, reserved)
    ensures Choose(w, nodes, reserved).Some? ==>
              FirstBest(w, nodes, reserved, i) && Choose(w, nodes, reserved).value == nodes[i]
  {
    assert nodes == [] ==> Rank(w, nodes, reserved) == [];
    hide Score, Feasible, Rank;
    i := 0;
    if nodes != [] {
      var last := |nodes| - 1;
      var front := nodes[..last];
      i := ChooseFirstBest(w, front, reserved);
      assert nodes == front + [nodes[last]];
      RankSnoc(w, front, nodes[last], reserved);
      HeadCarriesScore(w, front, reserved);
      FirstBestSnoc(w, front, nodes[last], reserved, i);
      hide FirstBest;
      if Feasible(w, nodes[last], reserved) &&
         (Rank(w, front, reserved) == [] || Rank(w, front, reserved)[0].score < Score(nodes[last])) {
        i := last;
      }
    }
  }

  method AssignLease(w: Workload, deployment: string, nodes: seq<Node>, reserved: map<string, int>)
    returns (lease: Option<Lease>)
    ensures lease.None? <==> NoneFeasible(w, nodes, reserved)
    ensures lease.Some? ==>
              exists i :: FirstBest(w, nodes, reserved, i) &&
                          lease.value == Lease(deployment, w.id, nodes[i].hotkey, nodes[i].id)
    // The leased node has all that is asked for; without a lease each listed node lacks some of it.
    ensures lease.Some? ==>
              exists i :: 0 <= i < |nodes| &&
                          var n := nodes[i];
                          && lease.value == Lease(deployment, w.id, n.hotkey, n.id)
                          && n.available >= w.gpus
                          && n.gpuCount - (if n.id in reserved then reserved[n.id] else 0) >= w.gpus
                          && n.vramPerGpu >= w.minVramPerGpu && n.cpuCores >= w.cpuCores && n.memoryGb >= w.memoryGb
                          && (n.kinds == {} || w.kind in n.kinds)
                          && (w.models == [] ||
                              exists m :: 0 <= m < |w.models| && Normalize(w.models[m]) == Normalize(n.gpuModel))
    ensures lease.None? ==>
              forall j :: 0 <= j < |nodes| ==>
                var n := nodes[j];
                || n.available < w.gpus || n.gpuCount - (if n.id in reserved then reserved[n.id] else 0) < w.gpus
                || n.vramPerGpu < w.minVramPerGpu || n.cpuCores < w.cpuCores || n.memoryGb < w.memoryGb
                || (n.kinds != {} && w.kind !in n.kinds)
                || (w.models != [] &&
                    forall m :: 0 <= m < |w.models| ==> Normalize(w.models[m]) != Normalize(n.gpuModel))
  {
    var ranked := RankNodes(w, nodes, reserved);
    ghost var i := ChooseFirstBest(w, nodes, reserved);
    if ranked == [] {
      return None;
    }
    var selected := ranked[0].node;
    assert selected == nodes[i];
    return Some(Lease(deployment, w.id, selected.hotkey, selected.id));
  }
}
