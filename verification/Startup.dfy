/** What a restart does: fail what was interrupted, requeue what was waiting, and drain the queue. */
module Startup {
  import opened DeploymentRows

  /** An entry of the Redis list: a deployment id, or a payload that does not decode. */
  datatype Entry = Item(id: Id) | Garbage

  const RECOVERY_LIMIT: nat := 100

  function QueuedIds(rows: Table): set<Id> {
    set id | id in rows && rows[id].status == Queued
  }

  /** The entries that get to run: of each pending id the first occurrence. */
  function FirstSeen(entries: seq<Entry>, pending: set<Id>): seq<Id> {
    if entries == [] then []
    else if entries[0].Item? && entries[0].id in pending
    then [entries[0].id] + FirstSeen(entries[1..], pending - {entries[0].id})
    else FirstSeen(entries[1..], pending)
  }

  /** ORDER BY created_at over the rows with status queued. */
  function Waiting(order: seq<Id>, rows: Table): (ids: seq<Id>) {
    if order == [] then []
    else (if IsQueued(rows, order[0]) then [order[0]] else []) + Waiting(order[1..], rows)
  }

  function Take(ids: seq<Id>, limit: nat): seq<Id> {
    if |ids| <= limit then ids else ids[..limit]
  }

  function Items(ids: seq<Id>): (r: seq<Entry>)
    ensures |r| == |ids|
  {
    seq(|ids|, i requires 0 <= i < |ids| => Item(ids[i]))
  }

  /** The rows once every id of `runs` has run. */
  function Finished(rows: Table, runs: seq<Id>, succeeds: Id -> bool): Table {
    map id | id in rows ::
      if id in runs then rows[id].(status := if succeeds(id) then Succeeded else Failed) else rows[id]
  }

  // ---- what FirstSeen means ----

  predicate Occurs(entries: seq<Entry>, id: Id) {
    exists i :: 0 <= i < |entries| && entries[i] == Item(id)
  }

  /** `i` is where `id` first occurs. */
  predicate FirstAt(entries: seq<Entry>, id: Id, i: nat) {
    && i < |entries| && entries[i] == Item(id)
    && forall j | 0 <= j < i :: entries[j] != Item(id)
  }

  predicate Distinct(ids: seq<Id>) {
    forall i, j | 0 <= i < j < |ids| :: ids[i] != ids[j]
  }

  lemma {:induction false} FirstSeenExactly(entries: seq<Entry>, pending: set<Id>)
    ensures Distinct(FirstSeen(entries, pending))
    ensures forall id :: id in FirstSeen(entries, pending) <==> id in pending && Occurs(entries, id)
  {
    if entries != [] {
      var rest := entries[1..];
      var pending' := if entries[0].Item? then pending - {entries[0].id} else pending;
      FirstSeenExactly(rest, pending');
      FirstSeenExactly(rest, pending);
      forall id ensures Occurs(entries, id) <==> entries[0] == Item(id) || Occurs(rest, id) {
        if Occurs(rest, id) {
          var i :| 0 <= i < |rest| && rest[i] == Item(id);
          assert entries[i + 1] == Item(id);
        }
        if Occurs(entries, id) && entries[0] != Item(id) {
          var i :| 0 <= i < |entries| && entries[i] == Item(id);
          assert rest[i - 1] == Item(id);
        }
      }
    }
  }

  /** Runs come in the order of first occurrence. */
  lemma {:induction false} FirstSeenInOrder(entries: seq<Entry>, pending: set<Id>, a: nat, b: nat, i: nat, j: nat)
    requires a < b < |FirstSeen(entries, pending)|
    requires FirstAt(entries, FirstSeen(entries, pending)[a], i) && FirstAt(entries, FirstSeen(entries, pending)[b], j)
    ensures i < j
    decreases |entries|
  {
    var r := FirstSeen(entries, pending);
    var rest := entries[1..];
    if entries[0].Item? && entries[0].id in pending {
      var pending' := pending - {entries[0].id};
      FirstSeenExactly(rest, pending');
      assert r[b] == FirstSeen(rest, pending')[b - 1];
      assert r[b] in FirstSeen(rest, pending');
      if a > 0 {
        assert r[a] == FirstSeen(rest, pending')[a - 1];
        assert r[a] in FirstSeen(rest, pending');
        assert FirstAt(rest, r[a], i - 1) && FirstAt(rest, r[b], j - 1);
        FirstSeenInOrder(rest, pending', a - 1, b - 1, i - 1, j - 1);
      }
    } else {
      FirstSeenExactly(rest, pending);
      assert r[a] in r && r[b] in r;
      assert FirstAt(rest, r[a], i - 1) && FirstAt(rest, r[b], j - 1);
      FirstSeenInOrder(rest, pending, a, b, i - 1, j - 1);
    }
  }

  // ---- what is recovered ----

  /** In the order of creation, a row of `a` stands before one of `b`. */
  predicate Precedes(order: seq<Id>, a: Id, b: Id) {
    exists i, j :: 0 <= i < j < |order| && order[i] == a && order[j] == b
  }

  function QueuedPositions(order: seq<Id>, rows: Table): set<nat> {
    set i: nat | i < |order| && IsQueued(rows, order[i])
  }

  /**
    The oldest queued rows, oldest first, as many as the limit allows: none of them
    stands after a later one of the list, and none left out stands before one taken.
   */
  ghost predicate OldestFirst(order: seq<Id>, rows: Table, limit: nat, ids: seq<Id>) {
    && |ids| == (if |QueuedPositions(order, rows)| <= limit then |QueuedPositions(order, rows)| else limit)
    && (forall k | 0 <= k < |ids| :: IsQueued(rows, ids[k]) && ids[k] in order)
    && (forall k, l | 0 <= k < l < |ids| :: Precedes(order, ids[k], ids[l]))
    && (Distinct(order) ==> Distinct(ids))
    && (forall k, id | 0 <= k < |ids| && id in order && IsQueued(rows, id) && id !in ids :: Precedes(order, ids[k], id))
    && (|QueuedPositions(order, rows)| <= limit ==> forall id | id in order && IsQueued(rows, id) :: id in ids)
  }

  /** Where the waiting rows stand, `from` places on. */
  function WaitingAt(order: seq<Id>, rows: Table, from: nat): seq<nat> {
    if order == [] then []
    else (if IsQueued(rows, order[0]) then [from] else []) + WaitingAt(order[1..], rows, from + 1)
  }

  lemma {:induction false} WaitingLength(order: seq<Id>, rows: Table, from: nat)
    ensures |Waiting(order, rows)| == |WaitingAt(order, rows, from)|
  {
    if order != [] {
      WaitingLength(order[1..], rows, from + 1);
    }
  }

  /** The k-th waiting row stands at the k-th of these positions. */
  lemma {:induction false} WaitingStands(order: seq<Id>, rows: Table, from: nat, k: nat)
    requires k < |WaitingAt(order, rows, from)|
    ensures k < |Waiting(order, rows)|
    ensures var p := WaitingAt(order, rows, from)[k];
            from <= p < from + |order| && order[p - from] == Waiting(order, rows)[k] && IsQueued(rows, order[p - from])
  {
    WaitingLength(order, rows, from);
    if order != [] {
      var taken := if IsQueued(rows, order[0]) then 1 else 0;
      if k >= taken {
        WaitingStands(order[1..], rows, from + 1, k - taken);
      }
    }
  }

  lemma {:induction false} WaitingIncreases(order: seq<Id>, rows: Table, from: nat, k: nat, l: nat)
    requires k < l < |WaitingAt(order, rows, from)|
    ensures WaitingAt(order, rows, from)[k] < WaitingAt(order, rows, from)[l]
  {
    if order != [] {
      var taken := if IsQueued(rows, order[0]) then 1 else 0;
      if k >= taken {
        WaitingIncreases(order[1..], rows, from + 1, k - taken, l - taken);
      } else {
        WaitingStands(order[1..], rows, from + 1, l - taken);
      }
    }
  }

  lemma {:induction false} QueuedIsAt(order: seq<Id>, rows: Table, from: nat, i: nat)
    requires i < |order| && IsQueued(rows, order[i])
    ensures from + i in WaitingAt(order, rows, from)
  {
    if i > 0 {
      QueuedIsAt(order[1..], rows, from + 1, i - 1);
    }
  }

  lemma WaitingIsAt(order: seq<Id>, rows: Table)
    ensures var at := WaitingAt(order, rows, 0);
            && |Waiting(order, rows)| == |at|
            && (forall k | 0 <= k < |at| :: at[k] < |order| && Waiting(order, rows)[k] == order[at[k]])
            && (forall k, l | 0 <= k < l < |at| :: at[k] < at[l])
            && Elements(at) == QueuedPositions(order, rows)
  {
    var at := WaitingAt(order, rows, 0);
    WaitingLength(order, rows, 0);
    forall k | 0 <= k < |at|
      ensures at[k] < |order| && Waiting(order, rows)[k] == order[at[k]] && IsQueued(rows, order[at[k]])
    {
      WaitingStands(order, rows, 0, k);
    }
    forall k, l | 0 <= k < l < |at| ensures at[k] < at[l] {
      WaitingIncreases(order, rows, 0, k, l);
    }
    forall i | i in QueuedPositions(order, rows) ensures i in at {
      QueuedIsAt(order, rows, 0, i);
    }
  }

  lemma WaitingMembers(order: seq<Id>, rows: Table, id: Id)
    ensures id in Waiting(order, rows) <==> id in order && IsQueued(rows, id)
  {
    var at := WaitingAt(order, rows, 0);
    WaitingIsAt(order, rows);
    if id in Waiting(order, rows) {
      var k :| 0 <= k < |at| && Waiting(order, rows)[k] == id;
      assert at[k] in Elements(at);
    }
    if id in order && IsQueued(rows, id) {
      var i :| 0 <= i < |order| && order[i] == id;
      assert i in Elements(at);
      var k :| 0 <= k < |at| && at[k] == i;
      assert Waiting(order, rows)[k] == id;
    }
  }

  function Elements(at: seq<nat>): set<nat> {
    set i | i in at
  }

  lemma ElementsOneMore(at: seq<nat>, i: nat)
    ensures Elements(at + [i]) == Elements(at) + {i}
  {
  }

  lemma {:induction false} IncreasingSize(at: seq<nat>)
    requires forall k, l | 0 <= k < l < |at| :: at[k] < at[l]
    ensures |Elements(at)| == |at|
    decreases |at|
  {
    if at != [] {
      var init, last := at[..|at| - 1], at[|at| - 1];
      IncreasingSize(init);
      assert at == init + [last];
      ElementsOneMore(init, last);
      assert last !in Elements(init);
    }
  }

  lemma WaitingCounts(order: seq<Id>, rows: Table)
    ensures |Waiting(order, rows)| == |QueuedPositions(order, rows)|
  {
    var at := WaitingAt(order, rows, 0);
    WaitingIsAt(order, rows);
    IncreasingSize(at);
    assert Elements(at) == QueuedPositions(order, rows);
  }

  lemma WaitingInOrder(order: seq<Id>, rows: Table, k: nat, l: nat)
    requires k < l < |Waiting(order, rows)|
    ensures Precedes(order, Waiting(order, rows)[k], Waiting(order, rows)[l])
    ensures Distinct(order) ==> Waiting(order, rows)[k] != Waiting(order, rows)[l]
  {
    var at := WaitingAt(order, rows, 0);
    WaitingIsAt(order, rows);
    assert order[at[k]] == Waiting(order, rows)[k] && order[at[l]] == Waiting(order, rows)[l];
  }

  lemma LeftOutIsLater(order: seq<Id>, rows: Table, limit: nat, k: nat, id: Id)
    requires k < |Take(Waiting(order, rows), limit)| && id in order && IsQueued(rows, id)
    requires id !in Take(Waiting(order, rows), limit)
    ensures Precedes(order, Take(Waiting(order, rows), limit)[k], id)
  {
    var all, ids := Waiting(order, rows), Take(Waiting(order, rows), limit);
    WaitingMembers(order, rows, id);
    var l :| 0 <= l < |all| && all[l] == id;
    forall i | 0 <= i < |ids| ensures all[i] in ids {
      assert all[i] == ids[i];
    }
    assert k < l;
    WaitingInOrder(order, rows, k, l);
  }

  lemma TakenAreOldest(order: seq<Id>, rows: Table, limit: nat)
    ensures OldestFirst(order, rows, limit, Take(Waiting(order, rows), limit))
  {
    var all, ids := Waiting(order, rows), Take(Waiting(order, rows), limit);
    WaitingCounts(order, rows);
    forall k | 0 <= k < |ids| ensures IsQueued(rows, ids[k]) && ids[k] in order {
      assert ids[k] == all[k] && all[k] in all;
      WaitingMembers(order, rows, ids[k]);
    }
    if |all| <= limit {
      forall id | id in order && IsQueued(rows, id) ensures id in ids {
        WaitingMembers(order, rows, id);
      }
    }
    forall k, l | 0 <= k < l < |ids|
      ensures Precedes(order, ids[k], ids[l]) && (Distinct(order) ==> ids[k] != ids[l])
    {
      WaitingInOrder(order, rows, k, l);
    }
    forall k, id | 0 <= k < |ids| && id in order && IsQueued(rows, id) && id !in ids
      ensures Precedes(order, ids[k], id)
    {
      LeftOutIsLater(order, rows, limit, k, id);
    }
  }

  // ---- what is run ----

  /** Of the waiting rows those that are listed, each once, in the order in which they first occur. */
  ghost predicate RanInOrder(entries: seq<Entry>, waiting: set<Id>, ran: seq<Id>) {
    && Distinct(ran)
    && (forall id :: id in ran <==> id in waiting && Occurs(entries, id))
    && forall a, b, i, j | 0 <= a < b < |ran| && FirstAt(entries, ran[a], i) && FirstAt(entries, ran[b], j) :: i < j
  }

  lemma FirstSeenRan(entries: seq<Entry>, pending: set<Id>)
    ensures RanInOrder(entries, pending, FirstSeen(entries, pending))
  {
    var ran := FirstSeen(entries, pending);
    FirstSeenExactly(entries, pending);
    forall a, b, i, j | 0 <= a < b < |ran| && FirstAt(entries, ran[a], i) && FirstAt(entries, ran[b], j) ensures i < j {
      FirstSeenInOrder(entries, pending, a, b, i, j);
    }
  }

  /** The rows afterwards: those that ran ended by their outcome, no other row changed. */
  predicate Ended(before: Table, after: Table, ran: seq<Id>, succeeds: Id -> bool) {
    && after.Keys == before.Keys
    && forall id | id in before ::
         && after[id].application == before[id].application
         && (id in ran && succeeds(id) ==> after[id].status == Succeeded)
         && (id in ran && !succeeds(id) ==> after[id].status == Failed)
         && (id !in ran ==> after[id].status == before[id].status)
  }

  // ---- the process that restarts ----

  class Dispatcher {
    var rows: Table
    const order: seq<Id>
    var queue: seq<Entry>
    var runs: seq<Id>

    constructor (rows: Table, order: seq<Id>, queue: seq<Entry>)
      ensures this.rows == rows && this.order == order && this.queue == queue && runs == []
    {
      this.rows, this.order, this.queue, runs := rows, order, queue, [];
    }

    method RecoverInterrupted()
      modifies this`rows
      ensures rows.Keys == old(rows).Keys
      ensures forall id | id in rows && old(rows)[id].status == Running :: rows[id] == old(rows)[id].(status := Failed)
      ensures forall id | id in rows && old(rows)[id].status != Running :: rows[id] == old(rows)[id]
      ensures forall id | id in rows :: rows[id].status != Running
    {
      rows := FailRunning(rows);
    }

    method Enqueue(id: Id)
      modifies this`queue
      ensures queue == old(queue) + [Item(id)]
    {
      queue := queue + [Item(id)];
    }

    method RecoverQueued(limit: int) returns (count: nat, ghost ids: seq<Id>)
      modifies this`queue
      ensures OldestFirst(order, rows, if limit <= 0 then 100 else limit, ids)
      ensures queue == old(queue) + Items(ids) && count == |ids|
      ensures ids == Take(Waiting(order, rows), if limit <= 0 then RECOVERY_LIMIT else limit)
    {
      var listed := Take(Waiting(order, rows), if limit <= 0 then RECOVERY_LIMIT else limit);
      for i := 0 to |listed|
        invariant queue == old(queue) + Items(listed[..i])
      {
        Enqueue(listed[i]);
        assert Items(listed[..i + 1]) == Items(listed[..i]) + [Item(listed[i])];
      }
      assert listed[..|listed|] == listed;
      count, ids := |listed|, listed;
      TakenAreOldest(order, rows, if limit <= 0 then 100 else limit);
    }

    /** StartQueuedDeployment. */
    method StartQueued(id: Id) returns (claimed: bool)
      modifies this`rows
      ensures claimed <==> id in old(rows) && old(rows)[id].status == Queued
      ensures rows == if claimed then old(rows)[id := old(rows)[id].(status := Running)] else old(rows)
    {
      claimed := IsQueued(rows, id);
      if claimed {
        rows := SetStatus(rows, id, Running);
      }
    }

    /** handle and Runner.Run on one entry, without database errors. */
    method Handle(entry: Entry, succeeds: Id -> bool)
      modifies this`rows, this`runs
      ensures if entry.Item? && IsQueued(old(rows), entry.id)
              then runs == old(runs) + [entry.id] &&
                   rows == old(rows)[entry.id :=
                     old(rows)[entry.id].(status := if succeeds(entry.id) then Succeeded else Failed)]
              else runs == old(runs) && rows == old(rows)
    {
      if entry.Garbage? || entry.id !in rows || rows[entry.id].status != Queued {
        return;
      }
      var claimed := StartQueued(entry.id);
      if claimed {
        runs := runs + [entry.id];
        rows := SetStatus(rows, entry.id, if succeeds(entry.id) then Succeeded else Failed);
      }
    }

    /** The worker's loop until the list is empty. */
    method Drain(succeeds: Id -> bool) returns (ghost ran: seq<Id>)
      modifies this`rows, this`queue, this`runs
      ensures queue == []
      ensures RanInOrder(old(queue), QueuedIds(old(rows)), ran) && runs == old(runs) + ran
      ensures Ended(old(rows), rows, ran, succeeds)
    {
      ghost var all := FirstSeen(queue, QueuedIds(rows));
      FirstSeenRan(queue, QueuedIds(rows));
      ghost var done: seq<Id> := [];
      while queue != []
        invariant runs == old(runs) + done
        invariant done + FirstSeen(queue, QueuedIds(rows)) == all
        invariant rows == Finished(old(rows), done, succeeds)
        decreases |queue|
      {
        var entry := queue[0];
        ghost var before := rows;
        assert queue == [entry] + queue[1..];
        queue := queue[1..];
        DrainedOne(old(rows), done, succeeds, entry, queue);
        Handle(entry, succeeds);
        if entry.Item? && IsQueued(before, entry.id) {
          done := done + [entry.id];
        }
      }
      ran := all;
      assert done + [] == all;
    }

    /**
      A restart followed by a drain: the oldest waiting rows, at most a hundred, are
      appended oldest first; each waiting row that is listed then runs once, in order
      of first occurrence; and nothing stays in progress if and only if every waiting
      row was listed, hence always with at most a hundred of them.
     */
    method RestartAndDrain(succeeds: Id -> bool) returns (ghost recovered: seq<Id>, ghost ran: seq<Id>)
      requires forall id :: id in order <==> id in rows
      modifies this
      ensures queue == []
      ensures OldestFirst(order, old(rows), 100, recovered)
      ensures RanInOrder(old(queue) + Items(recovered), QueuedIds(old(rows)), ran) && runs == old(runs) + ran
      ensures rows.Keys == old(rows).Keys
      ensures forall id | id in rows ::
                && (id in ran && succeeds(id) ==> rows[id].status == Succeeded)
                && (id in ran && !succeeds(id) ==> rows[id].status == Failed)
                && (id !in ran && old(rows)[id].status == Running ==> rows[id].status == Failed)
                && (id !in ran && old(rows)[id].status != Running ==> rows[id].status == old(rows)[id].status)
      ensures (forall id | id in rows :: !InProgress(rows[id])) <==>
              (forall id | id in QueuedIds(old(rows)) :: Occurs(old(queue) + Items(recovered), id))
      ensures |QueuedPositions(order, old(rows))| <= 100 ==> forall id | id in rows :: !InProgress(rows[id])
    {
      RecoverInterrupted();
      ghost var failed := rows;
      assert QueuedIds(failed) == QueuedIds(old(rows));
      var count;
      count, recovered := RecoverQueued(0);
      SameQueued(order, old(rows), failed, recovered);
      ghost var entries := queue;
      ran := Drain(succeeds);
      forall id | id in rows ensures InProgress(rows[id]) <==> id in QueuedIds(failed) && !Occurs(entries, id) {
        assert failed[id].status != Running;
      }
      if |QueuedPositions(order, old(rows))| <= 100 {
        forall id | id in QueuedIds(failed) ensures Occurs(entries, id) {
          ItemOccurs(old(queue), recovered, id);
        }
      }
    }
  }

  /** Failing the running rows leaves the queued ones queued, so the same ones are the oldest. */
  lemma SameQueued(order: seq<Id>, before: Table, after: Table, ids: seq<Id>)
    requires QueuedIds(before) == QueuedIds(after) && OldestFirst(order, after, 100, ids)
    ensures OldestFirst(order, before, 100, ids)
    ensures QueuedPositions(order, before) == QueuedPositions(order, after)
  {
    forall id ensures IsQueued(before, id) <==> IsQueued(after, id) {
      assert id in QueuedIds(before) <==> id in QueuedIds(after);
    }
    assert QueuedPositions(order, before) == QueuedPositions(order, after);
  }

  /** One entry less: what remains to run, after what ran. */
  lemma DrainedOne(rows: Table, done: seq<Id>, succeeds: Id -> bool, entry: Entry, rest: seq<Entry>)
    ensures var before := Finished(rows, done, succeeds);
            var all := done + FirstSeen([entry] + rest, QueuedIds(before));
            if entry.Item? && IsQueued(before, entry.id) then
              var after := SetStatus(before, entry.id, if succeeds(entry.id) then Succeeded else Failed);
              && after == Finished(rows, done + [entry.id], succeeds)
              && done + [entry.id] + FirstSeen(rest, QueuedIds(after)) == all
            else done + FirstSeen(rest, QueuedIds(before)) == all
  {
    var before := Finished(rows, done, succeeds);
    assert ([entry] + rest)[0] == entry && ([entry] + rest)[1..] == rest;
    if entry.Item? && IsQueued(before, entry.id) {
      OneMoreFinished(rows, done, succeeds, entry.id);
      var later := FirstSeen(rest, QueuedIds(before) - {entry.id});
      assert done + [entry.id] + later == done + ([entry.id] + later);
    }
  }

  lemma OneMoreFinished(rows: Table, done: seq<Id>, succeeds: Id -> bool, id: Id)
    requires IsQueued(Finished(rows, done, succeeds), id)
    ensures var before := Finished(rows, done, succeeds);
            var after := SetStatus(before, id, if succeeds(id) then Succeeded else Failed);
            after == Finished(rows, done + [id], succeeds) && QueuedIds(after) == QueuedIds(before) - {id}
  {
    var before := Finished(rows, done, succeeds);
    assert id !in done;
    assert forall x :: x in done + [id] <==> x in done || x == id;
  }

  lemma ItemOccurs(entries: seq<Entry>, ids: seq<Id>, id: Id)
    requires id in ids
    ensures Occurs(entries + Items(ids), id)
  {
    var i :| 0 <= i < |ids| && ids[i] == id;
    assert (entries + Items(ids))[|entries| + i] == Item(id);
  }
}
