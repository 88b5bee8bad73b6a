/**
  Account events: the protocol by which writers number and commit them so that a
  reader paging by id misses none.
 */
module AccountEvents {
  import opened Common

  datatype Event = Event(id: nat, user: string, kind: string)

  // --- The protocol ------------------------------------------------------------------

  /** A writer's open transaction: the advisory locks it holds until it ends, and the
      events it has numbered but not committed. */
  datatype Tx = Tx(locks: set<int>, pending: seq<Event>)

  /** A reader's cursor, and every event it has been given. */
  datatype Reader = Reader(user: string, cursor: nat, got: seq<Event>)

  datatype State = State(
    lastId: nat,                 // ids come from one sequence, starting at 1
    open: map<nat, Tx>,
    visible: seq<Event>,         // committed events, in commit order
    readers: map<nat, Reader>)

  datatype Step =
    | Lock(tx: nat, user: string)
    | TakeId(tx: nat, user: string, kind: string)
    | Commit(tx: nat)
    | Abort(tx: nat)
    | Subscribe(reader: nat, user: string)
    | Read(reader: nat, limit: nat)

  function TxOf(s: State, t: nat): Tx { if t in s.open then s.open[t] else Tx({}, []) }

  predicate Free(s: State, t: nat, k: int) { forall u :: u in s.open && u != t ==> k !in s.open[u].locks }

  /** The rows of a customer after a cursor, in order of id. */
  function After(events: seq<Event>, user: string, cursor: nat): seq<Event> {
    if events == [] then []
    else
      var rest := After(events[..|events| - 1], user, cursor);
      var e := events[|events| - 1];
      if e.user == user && e.id > cursor then InsertById(e, rest) else rest
  }

  function InsertById(e: Event, s: seq<Event>): seq<Event> {
    if s == [] || s[|s| - 1].id < e.id then s + [e] else InsertById(e, s[..|s| - 1]) + [s[|s| - 1]]
  }

  function Page(events: seq<Event>, user: string, cursor: nat, limit: nat): seq<Event> {
    var rows := After(events, user, cursor);
    if |rows| <= limit then rows else rows[..limit]
  }

  /** `key` maps a customer to the number of their lock. */
  function Apply(key: string -> int, s: State, step: Step): State {
    match step
    case Lock(t, user) =>
      if Free(s, t, key(user)) then s.(open := s.open[t := TxOf(s, t).(locks := TxOf(s, t).locks + {key(user)})]) else s
    case TakeId(t, user, kind) =>
      if t in s.open && key(user) in s.open[t].locks
      then s.(lastId := s.lastId + 1,
              open := s.open[t := s.open[t].(pending := s.open[t].pending + [Event(s.lastId + 1, user, kind)])])
      else s
    case Commit(t) => if t in s.open then s.(visible := s.visible + s.open[t].pending, open := s.open - {t}) else s
    case Abort(t) => s.(open := s.open - {t})
    case Subscribe(r, user) => if r in s.readers then s else s.(readers := s.readers[r := Reader(user, 0, [])])
    case Read(r, limit) =>
      if r in s.readers && limit >= 1
      then
        var reader := s.readers[r];
        var rows := Page(s.visible, reader.user, reader.cursor, limit);
        s.(readers := s.readers[r := reader.(
             got := reader.got + rows, cursor := if rows == [] then reader.cursor else rows[|rows| - 1].id)])
      else s
  }

  function Run(key: string -> int, s: State, steps: seq<Step>): State {
    if steps == [] then s else Apply(key, Run(key, s, steps[..|steps| - 1]), steps[|steps| - 1])
  }

  const START := State(0, map[], [], map[])

  lemma {:induction false} InsertedAre(e: Event, s: seq<Event>)
    ensures forall x :: x in InsertById(e, s) <==> x in s || x == e
  {
    if s != [] && s[|s| - 1].id >= e.id {
      InsertedAre(e, s[..|s| - 1]);
      assert s == s[..|s| - 1] + [s[|s| - 1]];
    }
  }

  /** Rows are put in by id, wherever the new one belongs. */
  lemma {:induction false} InsertedInOrder(e: Event, s: seq<Event>)
    requires Rising(s) && forall x :: x in s ==> x.id != e.id
    ensures Rising(InsertById(e, s)) && forall x :: x in InsertById(e, s) <==> x in s || x == e
  {
    InsertedAre(e, s);
    if s != [] && s[|s| - 1].id > e.id {
      var front, last := s[..|s| - 1], s[|s| - 1];
      assert last in s && forall x :: x in front ==> x in s;
      InsertedInOrder(e, front);
      var t := InsertById(e, front);
      hide InsertById;
      forall i | 0 <= i < |t| ensures t[i].id < last.id {
        assert t[i] in t;
      }
      assert Rising(t + [last]);
    } else if s != [] {
      assert s[|s| - 1] in s;
    }
  }

  /** Subscribing again does not start a reader over. */
  lemma SubscribedOnce(key: string -> int, s: State, r: nat, user: string)
    ensures var t := Apply(key, s, Subscribe(r, user));
            t.readers == if r in s.readers then s.readers else s.readers[r := Reader(user, 0, [])]
  {
  }

  lemma RunSnoc(key: string -> int, s: State, steps: seq<Step>, step: Step)
    ensures Run(key, s, steps + [step]) == Apply(key, Run(key, s, steps), step)
  {
    hide Apply;
    assert (steps + [step])[..|steps|] == steps;
  }

  /** Two customers' events written in one transaction, under both their locks. */
  function Written(a: string, b: string, first: string, second: string): seq<Step> {
    [] + [Lock(1, a)] + [TakeId(1, a, first)] + [Lock(1, b)] + [TakeId(1, b, second)] + [Commit(1)]
  }

  lemma WrittenIs(key: string -> int, a: string, b: string, first: string, second: string)
    ensures var s := Run(key, START, Written(a, b, first, second));
            s == State(2, map[], [Event(1, a, first), Event(2, b, second)], map[])
  {
    var s0 := [] + [Lock(1, a)];
    RunSnoc(key, START, [], Lock(1, a));
    RunSnoc(key, START, s0, TakeId(1, a, first));
    RunSnoc(key, START, s0 + [TakeId(1, a, first)], Lock(1, b));
    RunSnoc(key, START, s0 + [TakeId(1, a, first)] + [Lock(1, b)], TakeId(1, b, second));
    RunSnoc(key, START, s0 + [TakeId(1, a, first)] + [Lock(1, b)] + [TakeId(1, b, second)], Commit(1));
    hide Run, Apply;
    LocksFirst(key, a, first);
    LocksAndCommits(key, Apply(key, Apply(key, START, Lock(1, a)), TakeId(1, a, first)), b, second);
  }

  lemma LocksFirst(key: string -> int, a: string, first: string)
    ensures Apply(key, Apply(key, START, Lock(1, a)), TakeId(1, a, first)) ==
            State(1, map[1 := Tx({} + {key(a)}, [] + [Event(1, a, first)])], [], map[])
  {
    assert Apply(key, START, Lock(1, a)) == State(0, map[1 := Tx({} + {key(a)}, [])], [], map[]);
  }

  /** A writer that is alone locks another customer, writes an event of theirs, and commits. */
  lemma LocksAndCommits(key: string -> int, s: State, user: string, kind: string)
    requires s.open.Keys == {1} && s.visible == []
    ensures Apply(key, Apply(key, Apply(key, s, Lock(1, user)), TakeId(1, user, kind)), Commit(1)) ==
            State(s.lastId + 1, map[], s.open[1].pending + [Event(s.lastId + 1, user, kind)], s.readers)
  {
    var tx := s.open[1];
    var t := Apply(key, s, Lock(1, user));
    assert t == s.(open := s.open[1 := tx.(locks := tx.locks + {key(user)})]);
    var u := Apply(key, t, TakeId(1, user, kind));
    assert u.open.Keys == {1} && u.open[1].pending == tx.pending + [Event(s.lastId + 1, user, kind)];
    assert u.open - {1} == map[];
  }

  /** What is committed is read: each customer's reader is given that customer's event. */
  lemma WrittenIsRead(key: string -> int, a: string, b: string, first: string, second: string, limit: nat)
    requires a != b && limit >= 1
    ensures var s := Run(key, START, Written(a, b, first, second) + [Subscribe(0, b)] + [Read(0, limit)]);
            s.readers == map[0 := Reader(b, 2, [Event(2, b, second)])] && s.open == map[]
  {
    WrittenIs(key, a, b, first, second);
    var steps := Written(a, b, first, second);
    hide Written;
    RunSnoc(key, START, steps, Subscribe(0, b));
    RunSnoc(key, START, steps + [Subscribe(0, b)], Read(0, limit));
    hide Run;
    var visible := [Event(1, a, first), Event(2, b, second)];
    assert visible[..1] == [Event(1, a, first)] && visible[..1][..0] == [];
    assert After(visible[..1], b, 0) == [];
    assert After(visible, b, 0) == [Event(2, b, second)];
  }

  // --- Order of ids --------------------------------------------------------------------

  /** A customer's events in the order they became visible. */
  function Of(events: seq<Event>, user: string): seq<Event> {
    if events == [] then []
    else
      var rest := Of(events[..|events| - 1], user);
      if events[|events| - 1].user == user then rest + [events[|events| - 1]] else rest
  }

  predicate Rising(events: seq<Event>) { forall i, j :: 0 <= i < j < |events| ==> events[i].id < events[j].id }

  predicate Below(events: seq<Event>, user: string, id: nat) {
    forall i :: 0 <= i < |events| && events[i].user == user ==> events[i].id < id
  }

  /** While a transaction has numbered events of a customer, it holds their lock,
      nobody else does, and everything of theirs that is visible came before. */
  ghost predicate TxFine(key: string -> int, s: State, t: nat) {
    t in s.open ==>
      && Rising(s.open[t].pending)
      && (forall i :: 0 <= i < |s.open[t].pending| ==>
            var e := s.open[t].pending[i];
            1 <= e.id <= s.lastId && key(e.user) in s.open[t].locks && Below(s.visible, e.user, e.id))
  }

  ghost predicate LocksFine(s: State) {
    forall t, u :: t in s.open && u in s.open && t != u ==> s.open[t].locks !! s.open[u].locks
  }

  ghost predicate Numbered(s: State) {
    forall i :: 0 <= i < |s.visible| ==> 1 <= s.visible[i].id <= s.lastId
  }

  /** A reader has been given the first of the customer's events, and its cursor is
      the last of those. */
  ghost predicate ReaderFine(visible: seq<Event>, r: Reader) {
    && r.got <= Of(visible, r.user)
    && r.cursor == (if r.got == [] then 0 else r.got[|r.got| - 1].id)
  }

  ghost predicate Inv(key: string -> int, s: State) {
    && Numbered(s) && LocksFine(s)
    && (forall t :: TxFine(key, s, t))
    && (forall user :: Rising(Of(s.visible, user)))
    && (forall r :: r in s.readers ==> ReaderFine(s.visible, s.readers[r]))
  }

  // --- Filtering and sorting --------------------------------------------------------------

  lemma {:induction false} OfMembers(events: seq<Event>, user: string)
    ensures forall k :: 0 <= k < |Of(events, user)| ==>
            Of(events, user)[k] in events && Of(events, user)[k].user == user
  {
    if events != [] {
      OfMembers(events[..|events| - 1], user);
    }
  }

  lemma {:induction false} OfPositive(events: seq<Event>, user: string)
    requires forall k :: 0 <= k < |events| ==> events[k].id >= 1
    ensures forall k :: 0 <= k < |Of(events, user)| ==> Of(events, user)[k].id >= 1
  {
    if events != [] {
      OfPositive(events[..|events| - 1], user);
    }
  }

  /** Where a customer's event stands among theirs. */
  lemma {:induction false} OfIndex(events: seq<Event>, user: string, k: nat) returns (i: nat)
    requires k < |events| && events[k].user == user
    ensures i < |Of(events, user)| && Of(events, user)[i] == events[k]
  {
    var last := |events| - 1;
    if k == last {
      i := |Of(events[..last], user)|;
    } else {
      i := OfIndex(events[..last], user, k);
    }
  }

  lemma {:induction false} OfConcat(a: seq<Event>, b: seq<Event>, user: string)
    ensures Of(a + b, user) == Of(a, user) + Of(b, user)
  {
    if b == [] {
      assert a + b == a;
    } else {
      OfConcat(a, b[..|b| - 1], user);
      assert (a + b)[..|a + b| - 1] == a + b[..|b| - 1];
    }
  }

  lemma {:induction false} OfRising(events: seq<Event>, user: string)
    requires Rising(events)
    ensures Rising(Of(events, user))
  {
    if events != [] {
      var front := events[..|events| - 1];
      OfRising(front, user);
      OfMembers(front, user);
    }
  }

  lemma RisingConcat(a: seq<Event>, b: seq<Event>)
    requires Rising(a) && Rising(b)
    requires forall i, j :: 0 <= i < |a| && 0 <= j < |b| ==> a[i].id < b[j].id
    ensures Rising(a + b)
  {
  }

  /** The events after a cursor, of events already in order. */
  function Later(events: seq<Event>, cursor: nat): seq<Event> {
    if events == [] then []
    else
      var rest := Later(events[..|events| - 1], cursor);
      if events[|events| - 1].id > cursor then rest + [events[|events| - 1]] else rest
  }

  lemma {:induction false} LaterBounded(events: seq<Event>, cursor: nat, bound: nat)
    requires forall i :: 0 <= i < |events| ==> events[i].id < bound
    ensures forall k :: 0 <= k < |Later(events, cursor)| ==> Later(events, cursor)[k].id < bound
  {
    if events != [] {
      LaterBounded(events[..|events| - 1], cursor, bound);
    }
  }

  /** A customer's rows come out in commit order, since that is the order of ids. */
  lemma {:induction false} AfterIsLater(events: seq<Event>, user: string, cursor: nat)
    requires Rising(Of(events, user))
    ensures After(events, user, cursor) == Later(Of(events, user), cursor)
  {
    if events != [] {
      var front, e := events[..|events| - 1], events[|events| - 1];
      if e.user == user {
        var mine := Of(front, user);
        assert Of(events, user) == mine + [e] && (mine + [e])[..|mine|] == mine;
        assert Rising(mine) by {
          assert forall i :: 0 <= i < |mine| ==> mine[i] == (mine + [e])[i];
        }
        AfterIsLater(front, user, cursor);
        assert forall i :: 0 <= i < |mine| ==> mine[i].id < e.id by {
          assert forall i :: 0 <= i < |mine| ==> (mine + [e])[i] == mine[i] && (mine + [e])[|mine|] == e;
        }
        hide Rising, Of;
        LaterBounded(mine, cursor, e.id);
      } else {
        AfterIsLater(front, user, cursor);
      }
    }
  }

  lemma RisingFront(events: seq<Event>)
    requires Rising(events) && events != []
    ensures Rising(events[..|events| - 1])
  {
  }

  /** Past the events already given, everything is later than the cursor. */
  lemma {:induction false} LaterIsRest(events: seq<Event>, n: nat, cursor: nat)
    requires Rising(events) && n <= |events|
    requires cursor == if n == 0 then 0 else events[n - 1].id
    requires forall i :: 0 <= i < |events| ==> events[i].id >= 1
    ensures Later(events, cursor) == events[n..]
  {
    if events != [] {
      var last := |events| - 1;
      if n == |events| {
        LaterNone(events, cursor);
      } else {
        assert events[last].id > cursor;
        RisingFront(events);
        hide Rising;
        LaterIsRest(events[..last], n, cursor);
        assert events[n..] == events[..last][n..] + [events[last]];
      }
    }
  }

  lemma {:induction false} LaterNone(events: seq<Event>, cursor: nat)
    requires forall i :: 0 <= i < |events| ==> events[i].id <= cursor
    ensures Later(events, cursor) == []
  {
    if events != [] {
      LaterNone(events[..|events| - 1], cursor);
    }
  }

  lemma AfterIsRest(visible: seq<Event>, r: Reader)
    requires Rising(Of(visible, r.user)) && ReaderFine(visible, r)
    requires forall i :: 0 <= i < |visible| ==> visible[i].id >= 1
    ensures After(visible, r.user, r.cursor) == Of(visible, r.user)[|r.got|..]
  {
    hide Of, Rising, After, Later;
    var mine := Of(visible, r.user);
    AfterIsLater(visible, r.user, r.cursor);
    OfPositive(visible, r.user);
    assert r.got != [] ==> r.got[|r.got| - 1] == mine[|r.got| - 1];
    LaterIsRest(mine, |r.got|, r.cursor);
  }

  /** What a read returns: exactly the next events of the customer. */
  lemma PageIsNext(visible: seq<Event>, r: Reader, limit: nat)
    requires Rising(Of(visible, r.user)) && ReaderFine(visible, r)
    requires forall i :: 0 <= i < |visible| ==> visible[i].id >= 1
    ensures var mine := Of(visible, r.user);
            Page(visible, r.user, r.cursor, limit) == mine[|r.got|..Min(|mine|, |r.got| + limit)]
  {
    AfterIsRest(visible, r);
    hide After, Of, Rising;
    NextSlice(Of(visible, r.user), |r.got|, limit);
  }

  lemma NextSlice(mine: seq<Event>, n: nat, limit: nat)
    requires n <= |mine|
    ensures (if |mine[n..]| <= limit then mine[n..] else mine[n..][..limit]) == mine[n..Min(|mine|, n + limit)]
  {
    if |mine[n..]| > limit {
      assert mine[n..][..limit] == mine[n..n + limit];
    }
  }

  lemma ReadAdvances(visible: seq<Event>, r: Reader, limit: nat)
    requires Rising(Of(visible, r.user)) && ReaderFine(visible, r)
    requires forall i :: 0 <= i < |visible| ==> visible[i].id >= 1
    ensures var rows := Page(visible, r.user, r.cursor, limit);
            ReaderFine(visible, r.(got := r.got + rows, cursor := if rows == [] then r.cursor else rows[|rows| - 1].id))
  {
    hide Of, Page, Rising;
    PageIsNext(visible, r, limit);
    var mine, rows := Of(visible, r.user), Page(visible, r.user, r.cursor, limit);
    hide *;
    NextOf(visible, mine, r, rows, limit);
  }

  lemma NextOf(visible: seq<Event>, mine: seq<Event>, r: Reader, rows: seq<Event>, limit: nat)
    requires mine == Of(visible, r.user) && ReaderFine(visible, r)
    requires |r.got| <= |mine| && rows == mine[|r.got|..Min(|mine|, |r.got| + limit)]
    ensures ReaderFine(visible, r.(got := r.got + rows, cursor := if rows == [] then r.cursor else rows[|rows| - 1].id))
  {
    hide Of;
    assert r.got + rows == mine[..|r.got| + |rows|];
    assert rows != [] ==> (r.got + rows)[|r.got + rows| - 1] == rows[|rows| - 1];
    assert rows == [] ==> r.got + rows == r.got;
  }

  // --- Steps keep the order ------------------------------------------------------------------

  lemma CommitRises(key: string -> int, s: State, t: nat, user: string)
    requires Inv(key, s) && t in s.open
    ensures Of(s.visible, user) <= Of(s.visible + s.open[t].pending, user)
    ensures Rising(Of(s.visible + s.open[t].pending, user))
  {
    var pending := s.open[t].pending;
    assert TxFine(key, s, t);
    OfConcat(s.visible, pending, user);
    OfRising(pending, user);
    OfMembers(s.visible, user);
    OfMembers(pending, user);
    var a, b := Of(s.visible, user), Of(pending, user);
    forall i, j | 0 <= i < |a| && 0 <= j < |b| ensures a[i].id < b[j].id {
      var k :| 0 <= k < |pending| && pending[k] == b[j];
      assert Below(s.visible, pending[k].user, pending[k].id);
      var l :| 0 <= l < |s.visible| && s.visible[l] == a[i];
    }
    RisingConcat(a, b);
  }

  lemma CommitOthers(key: string -> int, s: State, t: nat, u: nat)
    requires Inv(key, s) && t in s.open
    ensures TxFine(key, Apply(key, s, Commit(t)), u)
  {
    var after := Apply(key, s, Commit(t));
    if u in after.open {
      assert TxFine(key, s, t) && TxFine(key, s, u);
      var mine := s.open[u].pending;
      forall i | 0 <= i < |mine| ensures Below(after.visible, mine[i].user, mine[i].id) {
        assert key(mine[i].user) in s.open[u].locks;
        forall k | 0 <= k < |s.open[t].pending| ensures s.open[t].pending[k].user != mine[i].user {
          assert key(s.open[t].pending[k].user) in s.open[t].locks;
        }
      }
    }
  }

  lemma CommitKeeps(key: string -> int, s: State, t: nat)
    requires Inv(key, s)
    ensures Inv(key, Apply(key, s, Commit(t)))
  {
    if t in s.open {
      var after := Apply(key, s, Commit(t));
      assert TxFine(key, s, t);
      forall u ensures TxFine(key, after, u) { CommitOthers(key, s, t, u); }
      forall user ensures Of(s.visible, user) <= Of(after.visible, user) && Rising(Of(after.visible, user)) {
        CommitRises(key, s, t, user);
      }
      hide TxFine, Rising;
    }
  }

  lemma TakeIdKeeps(key: string -> int, s: State, t: nat, user: string, kind: string)
    requires Inv(key, s)
    ensures Inv(key, Apply(key, s, TakeId(t, user, kind)))
  {
    var after := Apply(key, s, TakeId(t, user, kind));
    hide ReaderFine, Of;
    forall u ensures TxFine(key, after, u) {
      assert TxFine(key, s, u);
    }
  }

  lemma LockKeeps(key: string -> int, s: State, t: nat, user: string)
    requires Inv(key, s)
    ensures Inv(key, Apply(key, s, Lock(t, user)))
  {
    var after := Apply(key, s, Lock(t, user));
    hide ReaderFine, Of;
    forall u ensures TxFine(key, after, u) {
      assert TxFine(key, s, u);
    }
  }

  lemma AbortKeeps(key: string -> int, s: State, t: nat)
    requires Inv(key, s)
    ensures Inv(key, Apply(key, s, Abort(t)))
  {
    var after := Apply(key, s, Abort(t));
    hide ReaderFine, Of;
    forall u ensures TxFine(key, after, u) {
      assert TxFine(key, s, u);
    }
  }

  lemma ReadKeeps(key: string -> int, s: State, r: nat, limit: nat)
    requires Inv(key, s)
    ensures Inv(key, Apply(key, s, Read(r, limit)))
  {
    if r in s.readers && limit >= 1 {
      ReadAdvances(s.visible, s.readers[r], limit);
      var after := Apply(key, s, Read(r, limit));
      forall u ensures TxFine(key, after, u) {
        assert TxFine(key, s, u);
      }
      hide TxFine, Of, Page, ReaderFine;
    }
  }

  lemma StepKeeps(key: string -> int, s: State, step: Step)
    requires Inv(key, s)
    ensures Inv(key, Apply(key, s, step))
  {
    match step
    case Lock(t, user) => LockKeeps(key, s, t, user);
    case TakeId(t, user, kind) => TakeIdKeeps(key, s, t, user, kind);
    case Commit(t) => CommitKeeps(key, s, t);
    case Abort(t) => AbortKeeps(key, s, t);
    case Subscribe(r, user) =>
      forall u ensures TxFine(key, Apply(key, s, step), u) { assert TxFine(key, s, u); }
    case Read(r, limit) => ReadKeeps(key, s, r, limit);
  }

  /** Over every interleaving of writers and readers: a customer's events become
      visible in rising order of id; a reader has been given exactly the first of
      them, each once, and what it has not been given has an id beyond its cursor. */
  lemma {:induction false} ReadersMissNothing(key: string -> int, steps: seq<Step>)
    ensures Inv(key, Run(key, START, steps))
    ensures forall user :: Rising(Of(Run(key, START, steps).visible, user))
    ensures forall r :: r in Run(key, START, steps).readers ==>
              ReaderFine(Run(key, START, steps).visible, Run(key, START, steps).readers[r])
  {
    if steps != [] {
      ReadersMissNothing(key, steps[..|steps| - 1]);
      StepKeeps(key, Run(key, START, steps[..|steps| - 1]), steps[|steps| - 1]);
    }
  }

  /** Nothing visible is behind a cursor without having been given to its reader. */
  lemma NothingBehindTheCursor(key: string -> int, steps: seq<Step>, r: nat, k: nat)
    requires var s := Run(key, START, steps);
             r in s.readers && k < |s.visible| && s.visible[k].user == s.readers[r].user
    ensures var s := Run(key, START, steps);
            s.visible[k] in s.readers[r].got <==> s.visible[k].id <= s.readers[r].cursor
  {
    var s := Run(key, START, steps);
    ReadersMissNothing(key, steps);
    var reader := s.readers[r];
    var mine := Of(s.visible, reader.user);
    var i := OfIndex(s.visible, reader.user, k);
    GotIff(mine, reader, i);
  }

  lemma GotIff(mine: seq<Event>, r: Reader, i: nat)
    requires Rising(mine) && i < |mine| && r.got <= mine && mine[i].id >= 1
    requires r.cursor == if r.got == [] then 0 else r.got[|r.got| - 1].id
    ensures mine[i] in r.got <==> mine[i].id <= r.cursor
  {
    if i < |r.got| {
      assert r.got[i] == mine[i] && r.got[|r.got| - 1] == mine[|r.got| - 1];
    } else {
      assert forall j :: 0 <= j < |r.got| ==> r.got[j] == mine[j] && mine[j].id < mine[i].id;
    }
  }

  // --- What it rests on ------------------------------------------------------------------------

  /** Without the lock, ids can become visible out of order and a cursor passes one
      for good: 2 commits and is read before 1 commits, and 1 is never returned. */
  lemma UnlockedReaderMisses(user: string, limit: nat)
    requires limit >= 1
    ensures var one, two := Event(1, user, "ready"), Event(2, user, "failed");
            Page([two], user, 0, limit) == [two] &&
            forall later: seq<Event> :: one !in Page(later, user, two.id, limit)
  {
    var one, two := Event(1, user, "ready"), Event(2, user, "failed");
    assert [two][..0] == [] && After([], user, 0) == [];
    assert After([two], user, 0) == [two];
    forall later: seq<Event> ensures one !in Page(later, user, two.id, limit) {
      AfterBeyond(later, user, two.id);
    }
  }

  lemma {:induction false} AfterBeyond(events: seq<Event>, user: string, cursor: nat)
    ensures forall k :: 0 <= k < |After(events, user, cursor)| ==> After(events, user, cursor)[k].id > cursor
  {
    if events != [] {
      var front, e := events[..|events| - 1], events[|events| - 1];
      AfterBeyond(front, user, cursor);
      if e.user == user && e.id > cursor {
        InsertMembers(e, After(front, user, cursor));
      }
    }
  }

  lemma {:induction false} InsertMembers(e: Event, s: seq<Event>)
    ensures multiset(InsertById(e, s)) == multiset(s) + multiset{e}
    ensures forall k :: 0 <= k < |InsertById(e, s)| ==> InsertById(e, s)[k] == e || InsertById(e, s)[k] in s
  {
    if s != [] && s[|s| - 1].id >= e.id {
      InsertMembers(e, s[..|s| - 1]);
      assert s == s[..|s| - 1] + [s[|s| - 1]];
    }
  }
}
