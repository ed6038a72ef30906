/**
 Ordered row locks: transactions that lock wallet rows one at a time in sorted order.
 Wallet ids stand for their rank in the string order. A row lock is held from its
 SELECT ... FOR UPDATE until the transaction ends; locking a row twice is allowed, and an
 id without a wallet row locks nothing.
 */
module WalletLocks {
  // ---------- the lock order ----------

  function InsertId(ids: seq<int>, id: int): seq<int> {
    if ids == [] || ids[|ids| - 1] <= id then ids + [id]
    else InsertId(ids[..|ids| - 1], id) + [ids[|ids| - 1]]
  }

  /** The copy of the wallet ids that is sorted before any lock is taken. */
  function SortedIds(ids: seq<int>): seq<int> {
    if ids == [] then [] else InsertId(SortedIds(ids[..|ids| - 1]), ids[|ids| - 1])
  }

  ghost predicate Ascending(ids: seq<int>) {
    forall i, j :: 0 <= i < j < |ids| ==> ids[i] <= ids[j]
  }

  lemma {:induction false} InsertIdMembers(ids: seq<int>, id: int)
    ensures multiset(InsertId(ids, id)) == multiset(ids) + multiset{id}
  {
    if ids != [] && ids[|ids| - 1] > id {
      InsertIdMembers(ids[..|ids| - 1], id);
      assert ids == ids[..|ids| - 1] + [ids[|ids| - 1]];
    }
  }

  lemma {:induction false} InsertIdAscends(ids: seq<int>, id: int, top: int)
    requires Ascending(ids) && id <= top && forall i :: 0 <= i < |ids| ==> ids[i] <= top
    ensures Ascending(InsertId(ids, id)) && forall i :: 0 <= i < |InsertId(ids, id)| ==> InsertId(ids, id)[i] <= top
  {
    if ids != [] && ids[|ids| - 1] > id {
      InsertIdAscends(ids[..|ids| - 1], id, ids[|ids| - 1]);
    }
  }

  lemma {:induction false} SortedIdsMembers(ids: seq<int>)
    ensures multiset(SortedIds(ids)) == multiset(ids)
  {
    hide InsertId;
    if ids != [] {
      SortedIdsMembers(ids[..|ids| - 1]);
      InsertIdMembers(SortedIds(ids[..|ids| - 1]), ids[|ids| - 1]);
      assert ids == ids[..|ids| - 1] + [ids[|ids| - 1]];
    }
  }

  lemma {:induction false} SortedIdsAscend(ids: seq<int>)
    ensures Ascending(SortedIds(ids))
  {
    hide InsertId;
    if ids != [] {
      SortedIdsAscend(ids[..|ids| - 1]);
      var sorted, last := SortedIds(ids[..|ids| - 1]), ids[|ids| - 1];
      InsertIdAscends(sorted, last, if sorted != [] && sorted[|sorted| - 1] > last then sorted[|sorted| - 1] else last);
    }
  }

  /** The locking order is ascending and keeps every requested id, duplicates included. */
  lemma SortedIdsCorrect(ids: seq<int>)
    ensures Ascending(SortedIds(ids)) && multiset(SortedIds(ids)) == multiset(ids)
  {
    SortedIdsMembers(ids);
    SortedIdsAscend(ids);
  }

  // ---------- transactions ----------

  /** `taken` of the ids in `order` have been locked so far. */
  datatype Txn = Txn(order: seq<int>, taken: nat, ended: bool)
  datatype State = State(rows: set<int>, txns: seq<Txn>)

  predicate Holds(s: State, t: nat, row: int) {
    t < |s.txns| && !s.txns[t].ended && row in s.rows
    && exists k :: 0 <= k < s.txns[t].taken && k < |s.txns[t].order| && s.txns[t].order[k] == row
  }

  predicate Waiting(s: State, t: nat) {
    t < |s.txns| && !s.txns[t].ended && s.txns[t].taken < |s.txns[t].order|
  }

  /** Another transaction holds the row this one asks for next. */
  predicate Blocked(s: State, t: nat) {
    Waiting(s, t) && exists u :: 0 <= u < |s.txns| && u != t && Holds(s, u, s.txns[t].order[s.txns[t].taken])
  }

  predicate CanStep(s: State, t: nat) {
    t < |s.txns| && !s.txns[t].ended && !Blocked(s, t)
  }

  /** The transaction's next statement: lock the next row, or, holding all of them, run the operation and commit. */
  function Advance(s: State, t: nat): State
    requires CanStep(s, t)
  {
    var txn := s.txns[t];
    s.(txns := s.txns[t := if txn.taken < |txn.order| then txn.(taken := txn.taken + 1) else txn.(ended := true)])
  }

  /** A transaction that times out gives up its locks. */
  function Abort(s: State, t: nat): State
    requires t < |s.txns|
  {
    s.(txns := s.txns[t := s.txns[t].(ended := true)])
  }

  function Start(rows: set<int>, requests: seq<seq<int>>): State {
    State(rows, seq(|requests|, i requires 0 <= i < |requests| => Txn(SortedIds(requests[i]), 0, false)))
  }

  /** No row has two holders. */
  ghost predicate Exclusive(s: State) {
    forall t, u, row :: Holds(s, t, row) && Holds(s, u, row) ==> t == u
  }

  ghost predicate Ordered(s: State) {
    forall t :: 0 <= t < |s.txns| ==> Ascending(s.txns[t].order) && s.txns[t].taken <= |s.txns[t].order|
  }

  lemma StartIsGood(rows: set<int>, requests: seq<seq<int>>)
    ensures Exclusive(Start(rows, requests)) && Ordered(Start(rows, requests))
  {
    forall t | 0 <= t < |requests|
      ensures Ascending(Start(rows, requests).txns[t].order)
    {
      SortedIdsCorrect(requests[t]);
    }
  }

  lemma HoldsAfterAdvance(s: State, t: nat, u: nat, row: int)
    requires CanStep(s, t) && Ordered(s) && Holds(Advance(s, t), u, row)
    ensures Holds(s, u, row) || (u == t && s.txns[t].taken < |s.txns[t].order| && row == s.txns[t].order[s.txns[t].taken] && row in s.rows)
  {
    var after := Advance(s, t);
    var k :| 0 <= k < after.txns[u].taken && k < |after.txns[u].order| && after.txns[u].order[k] == row;
    if u != t || k < s.txns[t].taken {
      assert s.txns[u].order[k] == row;
    }
  }

  lemma AdvanceKeepsGood(s: State, t: nat)
    requires Exclusive(s) && Ordered(s) && CanStep(s, t)
    ensures Exclusive(Advance(s, t)) && Ordered(Advance(s, t))
  {
    var after := Advance(s, t);
    forall u: nat, v: nat, row: int | Holds(after, u, row) && Holds(after, v, row)
      ensures u == v
    {
      HoldsAfterAdvance(s, t, u, row);
      HoldsAfterAdvance(s, t, v, row);
    }
  }

  lemma AbortKeepsGood(s: State, t: nat)
    requires Exclusive(s) && Ordered(s) && t < |s.txns|
    ensures Exclusive(Abort(s, t)) && Ordered(Abort(s, t))
  {
    var after := Abort(s, t);
    forall u: nat, row: int | Holds(after, u, row)
      ensures Holds(s, u, row)
    {
      assert u != t && after.txns[u] == s.txns[u];
    }
  }

  // ---------- progress ----------

  /** Follow the chain of holders: each one waits for a strictly later row, so the chain ends at one that can step. */
  lemma {:induction false} ChainEnds(s: State, t: nat, bound: int) returns (u: nat)
    requires Ordered(s) && Exclusive(s) && t < |s.txns| && !s.txns[t].ended
    requires forall v, k :: 0 <= v < |s.txns| && 0 <= k < |s.txns[v].order| ==> s.txns[v].order[k] < bound
    ensures CanStep(s, u)
    decreases if Waiting(s, t) then bound - s.txns[t].order[s.txns[t].taken] else 0
  {
    if !Blocked(s, t) {
      return t;
    }
    var row := s.txns[t].order[s.txns[t].taken];
    var v :| 0 <= v < |s.txns| && v != t && Holds(s, v, row);
    var k :| 0 <= k < s.txns[v].taken && k < |s.txns[v].order| && s.txns[v].order[k] == row;
    if !Blocked(s, v) {
      return v;
    }
    // The holder already has this row and is its only holder, so the row it waits for comes later.
    var next := s.txns[v].order[s.txns[v].taken];
    var w :| 0 <= w < |s.txns| && w != v && Holds(s, w, next);
    assert row <= next && next != row;
    u := ChainEnds(s, v, bound);
  }

  function Highest(ids: seq<int>): (h: int)
    ensures forall k :: 0 <= k < |ids| ==> ids[k] < h
  {
    if ids == [] then 0
    else
      var h := Highest(ids[..|ids| - 1]);
      if ids[|ids| - 1] < h then h else ids[|ids| - 1] + 1
  }

  function HighestOf(txns: seq<Txn>): (h: int)
    ensures forall t, k :: 0 <= t < |txns| && 0 <= k < |txns[t].order| ==> txns[t].order[k] < h
  {
    if txns == [] then 0
    else
      var (h, last) := (HighestOf(txns[..|txns| - 1]), Highest(txns[|txns| - 1].order));
      if last < h then h else last
  }

  /** Deadlock freedom: whatever is wanted by however many transactions, some unfinished one can always step. */
  lemma SomeoneCanStep(s: State)
    requires Exclusive(s) && Ordered(s) && exists t :: 0 <= t < |s.txns| && !s.txns[t].ended
    ensures exists u :: CanStep(s, u)
  {
    var t :| 0 <= t < |s.txns| && !s.txns[t].ended;
    var u := ChainEnds(s, t, HighestOf(s.txns));
  }

  /** Statements left to execute. */
  function Work(txns: seq<Txn>): nat
    requires forall t :: 0 <= t < |txns| ==> txns[t].taken <= |txns[t].order|
  {
    if txns == [] then 0
    else
      var last := txns[|txns| - 1];
      Work(txns[..|txns| - 1]) + if last.ended then 0 else |last.order| - last.taken + 1
  }

  lemma {:induction false} WorkUpdate(txns: seq<Txn>, t: nat, txn: Txn)
    requires t < |txns| && txn.taken <= |txn.order| && forall i :: 0 <= i < |txns| ==> txns[i].taken <= |txns[i].order|
    ensures Work(txns[t := txn]) == Work(txns) - (if txns[t].ended then 0 else |txns[t].order| - txns[t].taken + 1)
                                    + (if txn.ended then 0 else |txn.order| - txn.taken + 1)
  {
    var n := |txns| - 1;
    if t == n {
      assert txns[t := txn][..n] == txns[..n];
    } else {
      assert txns[t := txn][..n] == txns[..n][t := txn];
      WorkUpdate(txns[..n], t, txn);
    }
  }

  // ---------- every run ----------

  datatype Event = Go(t: nat) | TimeOut(t: nat)

  predicate Possible(s: State, e: Event) {
    match e
    case Go(t) => CanStep(s, t)
    case TimeOut(t) => t < |s.txns| && !s.txns[t].ended
  }

  function After(s: State, e: Event): State
    requires Possible(s, e)
  {
    match e
    case Go(t) => Advance(s, t)
    case TimeOut(t) => Abort(s, t)
  }

  predicate IsRun(s: State, events: seq<Event>)
    decreases |events|
  {
    events == [] || (Possible(s, events[0]) && IsRun(After(s, events[0]), events[1..]))
  }

  function EndOf(s: State, events: seq<Event>): State
    requires IsRun(s, events)
    decreases |events|
  {
    if events == [] then s else EndOf(After(s, events[0]), events[1..])
  }

  lemma {:induction false} RunsAreBounded(s: State, events: seq<Event>)
    requires Exclusive(s) && Ordered(s) && IsRun(s, events)
    ensures var end := EndOf(s, events);
      && Exclusive(end) && Ordered(end) && |events| + Work(end.txns) <= Work(s.txns)
      && |end.txns| == |s.txns| && end.rows == s.rows
      && (forall t :: 0 <= t < |s.txns| ==> end.txns[t].order == s.txns[t].order)
    decreases |events|
  {
    if events != [] {
      var t, next := events[0].t, After(s, events[0]);
      match events[0] {
        case Go(_) => AdvanceKeepsGood(s, t);
        case TimeOut(_) => AbortKeepsGood(s, t);
      }
      WorkUpdate(s.txns, t, next.txns[t]);
      RunsAreBounded(next, events[1..]);
    }
  }

  /**
   For any wallets and any lists of wanted ids: under every schedule rows stay exclusively locked, at most
   one statement per wanted id plus one commit per transaction is ever executed, and a run that can not be
   extended has ended every transaction.
   */
  lemma EveryScheduleCompletes(rows: set<int>, requests: seq<seq<int>>, events: seq<Event>)
    requires IsRun(Start(rows, requests), events)
    ensures var end := EndOf(Start(rows, requests), events);
      && Exclusive(end)
      && |events| <= Work(Start(rows, requests).txns)
      && ((forall t :: !CanStep(end, t)) ==> forall t :: 0 <= t < |end.txns| ==> end.txns[t].ended)
  {
    StartIsGood(rows, requests);
    RunsAreBounded(Start(rows, requests), events);
    var end := EndOf(Start(rows, requests), events);
    if t :| 0 <= t < |end.txns| && !end.txns[t].ended {
      SomeoneCanStep(end);
    }
  }

  /** When a transaction runs its operation it holds every requested wallet row, and nobody else holds any of them. */
  lemma OperationHoldsAllRows(rows: set<int>, requests: seq<seq<int>>, events: seq<Event>, t: nat, row: int)
    requires IsRun(Start(rows, requests), events) && t < |requests|
    requires var txn := EndOf(Start(rows, requests), events).txns;
      |txn| > t && !txn[t].ended && txn[t].taken == |txn[t].order|
    requires row in requests[t] && row in rows
    ensures var end := EndOf(Start(rows, requests), events);
      Holds(end, t, row) && forall u :: Holds(end, u, row) ==> u == t
  {
    StartIsGood(rows, requests);
    RunsAreBounded(Start(rows, requests), events);
    SortedIdsCorrect(requests[t]);
    assert row in multiset(requests[t]);
    assert row in multiset(SortedIds(requests[t]));
    hide Ascending, Ordered, SortedIds, IsRun, EndOf;
    var k :| 0 <= k < |SortedIds(requests[t])| && SortedIds(requests[t])[k] == row;
  }

  /** Two transactions that lock the same two rows in opposite orders. */
  function Opposite(first: nat, second: nat): State {
    State({1, 2}, [Txn([1, 2], first, false), Txn([2, 1], second, false)])
  }

  lemma OppositeIsStuck()
    ensures Exclusive(Opposite(1, 1)) && forall t :: !CanStep(Opposite(1, 1), t)
  {
    var s := Opposite(1, 1);
    assert s.txns[0].order[0] == 1 && s.txns[1].order[0] == 2;
    assert Holds(s, 0, 1) && Holds(s, 1, 2);
    assert s.txns[0].order[s.txns[0].taken] == 2 && s.txns[1].order[s.txns[1].taken] == 1;
    assert Blocked(s, 0) && Blocked(s, 1);
    assert forall t :: CanStep(s, t) ==> t == 0 || t == 1;
  }

  lemma OppositeSteps()
    ensures CanStep(Opposite(0, 0), 0) && Advance(Opposite(0, 0), 0) == Opposite(1, 0)
    ensures CanStep(Opposite(1, 0), 1) && Advance(Opposite(1, 0), 1) == Opposite(1, 1)
  {
  }

  /** From their start each may lock its first row; then neither can ever step: sorting is what prevents it. */
  lemma UnsortedOrdersDeadlock()
    ensures var events := [Go(0), Go(1)];
      && IsRun(Opposite(0, 0), events) && EndOf(Opposite(0, 0), events) == Opposite(1, 1)
      && Exclusive(Opposite(1, 1)) && !Opposite(1, 1).txns[0].ended && !Opposite(1, 1).txns[1].ended
      && forall t :: !CanStep(Opposite(1, 1), t)
  {
    OppositeSteps();
    OppositeIsStuck();
    hide CanStep, Advance, Exclusive;
    var events := [Go(0), Go(1)];
    assert events[1..] == [Go(1)] && events[1..][1..] == [];
  }

  // ---------- the service ----------

  class LockService {
    var rows: set<int>
    var txns: seq<Txn>

    constructor (rows: set<int>)
      ensures View() == State(rows, [])
    {
      this.rows, txns := rows, [];
    }

    function View(): State
      reads this
    {
      State(rows, txns)
    }

    /** withMultipleWalletLocks opens its transaction on a sorted copy of the ids. */
    method Begin(walletIds: seq<int>) returns (t: nat)
      modifies this`txns
      ensures t == old(|txns|) && txns == old(txns) + [Txn(SortedIds(walletIds), 0, false)]
      ensures old(Exclusive(View()) && Ordered(View())) ==> Exclusive(View()) && Ordered(View())
    {
      t := |txns|;
      SortedIdsCorrect(walletIds);
      ghost var before := View();
      txns := txns + [Txn(SortedIds(walletIds), 0, false)];
      forall u: nat, row: int | Holds(View(), u, row)
        ensures Holds(before, u, row)
      {
        assert u < |before.txns| && before.txns[u] == txns[u];
      }
    }

    /** SELECT ... FOR UPDATE on the next id; refused while another transaction holds the row. */
    method LockNext(t: nat) returns (granted: bool)
      requires Waiting(View(), t)
      modifies this`txns
      ensures granted <==> CanStep(old(View()), t)
      ensures View() == if granted then Advance(old(View()), t) else old(View())
      ensures old(Exclusive(View()) && Ordered(View())) ==> Exclusive(View()) && Ordered(View())
    {
      var row := txns[t].order[txns[t].taken];
      granted := !exists u :: 0 <= u < |txns| && u != t && Holds(View(), u, row);
      ghost var before := View();
      if granted {
        txns := txns[t := txns[t].(taken := txns[t].taken + 1)];
        if Exclusive(before) && Ordered(before) {
          AdvanceKeepsGood(before, t);
        }
      }
    }
  }
}
