/**
  Streaming a deployment's log to one client: subscribe, send the history, then
  send what arrives, while a writer appends each line and then publishes it.
 */
module LogStream {
  import opened LogBuses

  /** A log line is known by its id; 0 is a line that could not be stored. */
  type Id = nat

  const HISTORY_LIMIT: nat := 500

  // ---- the filter ----

  datatype Advanced = Advanced(send: bool, last: Id)

  /** advanceLastEventID. */
  function Advance(last: Id, id: Id): Advanced {
    if id == 0 then Advanced(true, last) else if id <= last then Advanced(false, last) else Advanced(true, id)
  }

  datatype Sent = Sent(ids: seq<Id>, last: Id)

  /** The filter over a list, starting from `last`. */
  function SendAll(last: Id, ids: seq<Id>): Sent {
    if ids == [] then Sent([], last)
    else
      var before := SendAll(last, ids[..|ids| - 1]);
      var a := Advance(before.last, ids[|ids| - 1]);
      Sent(if a.send then before.ids + [ids[|ids| - 1]] else before.ids, a.last)
  }

  function Numbered(ids: seq<Id>): seq<Id> {
    if ids == [] then []
    else Numbered(ids[..|ids| - 1]) + (if ids[|ids| - 1] == 0 then [] else [ids[|ids| - 1]])
  }

  predicate Increasing(ids: seq<Id>) {
    forall i, j | 0 <= i < j < |ids| :: ids[i] < ids[j]
  }

  predicate Above(ids: seq<Id>, last: Id) {
    forall i | 0 <= i < |ids| :: last < ids[i]
  }

  /** The ids after `last`: what a client that saw `last` has not seen. */
  function Later(table: seq<Id>, last: Id): seq<Id> {
    if table == [] then []
    else Later(table[..|table| - 1], last) + (if table[|table| - 1] > last then [table[|table| - 1]] else [])
  }

  /** ListDeploymentLogsAfter or ListRecentDeploymentLogs. */
  function History(table: seq<Id>, last: Id): seq<Id> {
    if last > 0 then First(Later(table, last), HISTORY_LIMIT) else Recent(table, HISTORY_LIMIT)
  }

  function First(ids: seq<Id>, n: nat): seq<Id> {
    if |ids| <= n then ids else ids[..n]
  }

  function Recent(ids: seq<Id>, n: nat): seq<Id> {
    if |ids| <= n then ids else ids[|ids| - n..]
  }

  // ---- writer, bus and client ----

  datatype Client = Connecting | Subscribed | Streaming | Gone

  /**
    `writing` is a line stored (or failed to be) and not published yet. `initial`
    is the client's Last-Event-ID. `from` counts the lines published before the
    client subscribed and `historyAt` those stored when its history was read.
    `received` is what it took from its channel so far, `dropped` the lines that
    were published to it and did not reach the channel.
   */
  datatype State = State(
    table: seq<Id>,
    writing: seq<Id>,
    client: Client,
    channel: seq<Id>,
    initial: Id,
    last: Id,
    sent: seq<Id>,
    from: nat,
    historyAt: nat,
    received: seq<Id>,
    dropped: set<Id>)

  datatype Step =
    | Append(id: Id)
    | AppendFails
    | Publish(delivered: bool)
    | Subscribe
    | SendHistory
    | Receive
    | Leave

  /** The lines published so far. */
  function Published(s: State): seq<Id> {
    if s.writing != [] && s.writing[0] != 0 && s.table != [] then s.table[..|s.table| - 1] else s.table
  }

  predicate Listening(s: State) {
    s.client == Subscribed || s.client == Streaming
  }

  /** One atomic step; a step that is not enabled does nothing. */
  function Next(s: State, step: Step): State {
    match step
    case Append(id) =>
      if s.writing == [] && id > 0 && (s.table == [] || s.table[|s.table| - 1] < id)
      then s.(table := s.table + [id], writing := [id]) else s
    case AppendFails => if s.writing == [] then s.(writing := [0]) else s
    case Publish(delivered) =>
      if s.writing == [] then s
      else if !Listening(s) then s.(writing := [])
      else if delivered && |s.channel| < CHANNEL_SIZE then s.(writing := [], channel := s.channel + [s.writing[0]])
      else s.(writing := [], dropped := s.dropped + {s.writing[0]})
    case Subscribe =>
      if s.client == Connecting
      then s.(client := Subscribed, from := |Published(s)|, channel := [], received := [], dropped := {}) else s
    case SendHistory =>
      if s.client == Subscribed then
        var r := SendAll(s.last, History(s.table, s.last));
        s.(client := Streaming, sent := s.sent + r.ids, last := r.last, historyAt := |s.table|)
      else s
    case Receive =>
      if s.client == Streaming && s.channel != [] then
        var id := s.channel[0];
        var a := Advance(s.last, id);
        s.(channel := s.channel[1..], received := s.received + [id],
           sent := if a.send then s.sent + [id] else s.sent, last := a.last)
      else s
    case Leave => s.(client := Gone, channel := [])
  }

  function Run(s: State, steps: seq<Step>): State {
    if steps == [] then s else Next(Run(s, steps[..|steps| - 1]), steps[|steps| - 1])
  }

  /** A client about to connect to a log of which any part exists. */
  predicate Start(s: State) {
    && Increasing(s.table) && Above(s.table, 0) && s.writing == [] && s.client == Connecting
    && s.last == s.initial && s.sent == []
  }

  // ---- ids only ever grow ----

  lemma {:induction false} NumberedAppend(a: seq<Id>, b: seq<Id>)
    ensures Numbered(a + b) == Numbered(a) + Numbered(b)
  {
    if b == [] {
      assert a + b == a;
    } else {
      assert (a + b)[..|a + b| - 1] == a + b[..|b| - 1];
      NumberedAppend(a, b[..|b| - 1]);
    }
  }

  /** Everything numbered that was sent is in order, above the client's id and at most `last`. */
  predicate InOrder(sent: seq<Id>, initial: Id, last: Id) {
    && initial <= last
    && Increasing(Numbered(sent)) && Above(Numbered(sent), initial)
    && forall i | 0 <= i < |Numbered(sent)| :: Numbered(sent)[i] <= last
  }

  lemma AdvanceInOrder(sent: seq<Id>, initial: Id, last: Id, id: Id)
    requires InOrder(sent, initial, last)
    ensures var a := Advance(last, id);
            InOrder(if a.send then sent + [id] else sent, initial, a.last)
  {
    if id == 0 || id > last {
      SentGrows(sent, initial, last, id);
    }
  }

  lemma SentGrows(sent: seq<Id>, initial: Id, last: Id, id: Id)
    requires InOrder(sent, initial, last) && (id == 0 || id > last)
    ensures InOrder(sent + [id], initial, if id == 0 then last else id)
  {
    NumberedSnoc(sent, id);
    if id == 0 {
      assert Numbered(sent) + [] == Numbered(sent);
    } else {
      OneMoreInOrder(Numbered(sent), initial, last, id);
    }
  }

  lemma OneMoreInOrder(ids: seq<Id>, initial: Id, last: Id, id: Id)
    requires Increasing(ids) && Above(ids, initial) && initial <= last < id
    requires forall i | 0 <= i < |ids| :: ids[i] <= last
    ensures Increasing(ids + [id]) && Above(ids + [id], initial)
    ensures forall i | 0 <= i < |ids + [id]| :: (ids + [id])[i] <= id
  {
  }

  lemma {:induction false} SendAllInOrder(sent: seq<Id>, initial: Id, last: Id, ids: seq<Id>)
    requires InOrder(sent, initial, last)
    ensures InOrder(sent + SendAll(last, ids).ids, initial, SendAll(last, ids).last)
    decreases |ids|
  {
    if ids == [] {
      assert sent + [] == sent;
    } else {
      SendAllInOrder(sent, initial, last, ids[..|ids| - 1]);
      var before := SendAll(last, ids[..|ids| - 1]);
      AdvanceInOrder(sent + before.ids, initial, before.last, ids[|ids| - 1]);
      assert sent + (before.ids + [ids[|ids| - 1]]) == sent + before.ids + [ids[|ids| - 1]];
    }
  }

  lemma StepInOrder(s: State, step: Step)
    requires InOrder(s.sent, s.initial, s.last)
    ensures InOrder(Next(s, step).sent, s.initial, Next(s, step).last) && Next(s, step).initial == s.initial
  {
    if step.SendHistory? && s.client == Subscribed {
      SendAllInOrder(s.sent, s.initial, s.last, History(s.table, s.last));
    } else if step.Receive? && s.client == Streaming && s.channel != [] {
      AdvanceInOrder(s.sent, s.initial, s.last, s.channel[0]);
    }
  }

  /**
    Over every interleaving, numbered lines reach the client in strictly increasing order, all
    after its Last-Event-ID.
   */
  lemma {:induction false} IdsOnlyGrow(s: State, steps: seq<Step>)
    requires Start(s)
    ensures var r := Run(s, steps);
            && InOrder(r.sent, r.initial, r.last) && r.initial == s.initial
            && Increasing(Numbered(r.sent)) && Above(Numbered(r.sent), s.initial)
  {
    if steps != [] {
      IdsOnlyGrow(s, steps[..|steps| - 1]);
      StepInOrder(Run(s, steps[..|steps| - 1]), steps[|steps| - 1]);
    }
  }

  // ---- what a client is sent ----

  function LastOr(ids: seq<Id>, last: Id): Id {
    if ids == [] then last else ids[|ids| - 1]
  }

  lemma {:induction false} LaterMembers(table: seq<Id>, last: Id, id: Id)
    ensures id in Later(table, last) <==> id in table && id > last
  {
    if table != [] {
      LaterMembers(table[..|table| - 1], last, id);
      assert table == table[..|table| - 1] + [table[|table| - 1]];
    }
  }

  lemma OneMoreIncreasing(ids: seq<Id>, last: Id, id: Id)
    requires Increasing(ids) && Above(ids, last) && last < id && forall i | 0 <= i < |ids| :: ids[i] < id
    ensures Increasing(ids + [id]) && Above(ids + [id], last)
  {
  }

  lemma {:induction false} LaterIncreasing(table: seq<Id>, last: Id)
    requires Increasing(table)
    ensures Increasing(Later(table, last)) && Above(Later(table, last), last)
  {
    if table != [] {
      var init, id := table[..|table| - 1], table[|table| - 1];
      LaterIncreasing(init, last);
      var later := Later(init, last);
      forall i | 0 <= i < |later| ensures later[i] < id {
        LaterMembers(init, last, later[i]);
      }
      if id > last {
        OneMoreIncreasing(later, last, id);
      }
    }
  }

  lemma {:induction false} NumberedAll(ids: seq<Id>)
    requires Above(ids, 0)
    ensures Numbered(ids) == ids
  {
    if ids != [] {
      NumberedAll(ids[..|ids| - 1]);
      assert ids == ids[..|ids| - 1] + [ids[|ids| - 1]];
    }
  }

  lemma {:induction false} LaterAll(table: seq<Id>)
    requires Above(table, 0)
    ensures Later(table, 0) == table
  {
    if table != [] {
      LaterAll(table[..|table| - 1]);
      assert table == table[..|table| - 1] + [table[|table| - 1]];
    }
  }

  lemma {:induction false} NumberedMembers(ids: seq<Id>, id: Id)
    ensures id in Numbered(ids) <==> id in ids && id != 0
  {
    if ids != [] {
      NumberedMembers(ids[..|ids| - 1], id);
      assert ids == ids[..|ids| - 1] + [ids[|ids| - 1]];
    }
  }

  /** The filter over two lists is the filter over the first and then over the second. */
  lemma {:induction false} SendAllAppend(last: Id, a: seq<Id>, b: seq<Id>)
    ensures var first := SendAll(last, a);
            var second := SendAll(first.last, b);
            SendAll(last, a + b) == Sent(first.ids + second.ids, second.last)
    decreases |b|
  {
    if b == [] {
      assert a + b == a && SendAll(last, a).ids + [] == SendAll(last, a).ids;
    } else {
      var init := b[..|b| - 1];
      assert (a + b)[..|a + b| - 1] == a + init;
      SendAllAppend(last, a, init);
      var x, y := SendAll(last, a).ids, SendAll(SendAll(last, a).last, init).ids;
      assert x + (y + [b[|b| - 1]]) == (x + y) + [b[|b| - 1]];
    }
  }

  /** Of ids in order the filter lets through exactly those above where it started. */
  lemma {:induction false} SendAllIsLater(last: Id, ids: seq<Id>)
    requires Increasing(Numbered(ids))
    ensures SendsLater(last, ids)
    decreases |ids|
  {
    if ids != [] {
      var init, id := ids[..|ids| - 1], ids[|ids| - 1];
      assert ids == init + [id];
      NumberedSnoc(init, id);
      PrefixIncreasing(Numbered(init), Numbered(ids));
      SendAllIsLater(last, init);
      if id == 0 {
        SendsUnnumbered(last, init);
      } else {
        SendsNumbered(last, init, id);
      }
    }
  }

  predicate SendsLater(last: Id, ids: seq<Id>) {
    && Numbered(SendAll(last, ids).ids) == Later(Numbered(ids), last)
    && SendAll(last, ids).last == LastOr(Later(Numbered(ids), last), last)
  }

  lemma SendAllSnoc(last: Id, init: seq<Id>, id: Id)
    ensures var before := SendAll(last, init);
            var a := Advance(before.last, id);
            SendAll(last, init + [id]) == Sent(if a.send then before.ids + [id] else before.ids, a.last)
  {
    assert (init + [id])[..|init|] == init;
  }

  lemma SendsUnnumbered(last: Id, init: seq<Id>)
    requires SendsLater(last, init)
    ensures SendsLater(last, init + [0])
  {
    var sent := SendAll(last, init).ids;
    SendAllSnoc(last, init, 0);
    NumberedSnoc(init, 0);
    NumberedSnoc(sent, 0);
    assert Numbered(sent) + [] == Numbered(sent) && Numbered(init) + [] == Numbered(init);
  }

  lemma SendsNumbered(last: Id, init: seq<Id>, id: Id)
    requires SendsLater(last, init) && id != 0 && Increasing(Numbered(init) + [id])
    ensures SendsLater(last, init + [id])
  {
    var sent, numbered := SendAll(last, init).ids, Numbered(init);
    SendAllSnoc(last, init, id);
    NumberedSnoc(init, id);
    NumberedSnoc(sent, id);
    LaterSnoc(numbered, id, last);
    LaterLast(numbered, last, id);
    assert Later(numbered, last) + [] == Later(numbered, last);
  }

  lemma NumberedSnoc(ids: seq<Id>, id: Id)
    ensures Numbered(ids + [id]) == Numbered(ids) + if id == 0 then [] else [id]
  {
    assert (ids + [id])[..|ids|] == ids;
  }

  lemma LaterSnoc(ids: seq<Id>, id: Id, last: Id)
    ensures Later(ids + [id], last) == Later(ids, last) + if id > last then [id] else []
  {
    assert (ids + [id])[..|ids|] == ids;
  }

  lemma PrefixIncreasing(a: seq<Id>, b: seq<Id>)
    requires a <= b && Increasing(b)
    ensures Increasing(a)
  {
  }

  /** An id above all of a list is above the last of its later ids, if it is above the bound at all. */
  lemma LaterLast(ids: seq<Id>, last: Id, id: Id)
    requires Increasing(ids + [id])
    ensures id > last ==> LastOr(Later(ids, last), last) < id
    ensures id <= last ==> Later(ids, last) == []
  {
    var later := Later(ids, last);
    var all := ids + [id];
    if later != [] {
      LaterMembers(ids, last, later[|later| - 1]);
      var i :| 0 <= i < |ids| && ids[i] == later[|later| - 1];
      assert all[i] < all[|ids|];
    }
  }

  lemma {:induction false} SendAllSends(last: Id, ids: seq<Id>)
    requires Increasing(ids) && Above(ids, last)
    ensures SendAll(last, ids) == Sent(ids, LastOr(ids, last))
  {
    if ids != [] {
      var init, id := ids[..|ids| - 1], ids[|ids| - 1];
      SendAllSends(last, init);
      assert Advance(LastOr(init, last), id) == Advanced(true, id);
      assert ids == init + [id];
    }
  }

  lemma HistoryInOrder(table: seq<Id>, initial: Id)
    requires Increasing(table) && Above(table, 0)
    ensures Increasing(History(table, initial)) && Above(History(table, initial), initial)
    ensures forall id | id in History(table, initial) :: id in table
  {
    LaterIncreasing(table, initial);
    forall id | id in History(table, initial) ensures id in table {
      LaterMembers(table, initial, id);
    }
  }

  /** What reached the client: its history, then of the lines received those above it. */
  lemma SentIsHistoryThenLater(table: seq<Id>, initial: Id, received: seq<Id>)
    requires Increasing(table) && Above(table, 0) && Increasing(Numbered(received))
    ensures var history := History(table, initial);
            Numbered(SendAll(initial, history + received).ids)
            == history + Later(Numbered(received), LastOr(history, initial))
  {
    var history := History(table, initial);
    HistoryInOrder(table, initial);
    SendAllAppend(initial, history, received);
    SendAllSends(initial, history);
    SendAllIsLater(LastOr(history, initial), received);
    NumberedAppend(history, SendAll(LastOr(history, initial), received).ids);
    NumberedAll(history);
  }

  // ---- the invariant ----

  predicate WriterValid(s: State) {
    && Increasing(s.table) && Above(s.table, 0)
    && |s.writing| <= 1
    && (s.writing != [] && s.writing[0] != 0 ==> s.table != [] && s.writing[0] == s.table[|s.table| - 1])
  }

  /** Every line published since the client subscribed was delivered, in order, or dropped. */
  ghost predicate TrafficValid(published: seq<Id>, from: nat, delivered: seq<Id>, dropped: set<Id>) {
    && from <= |published|
    && Increasing(Numbered(delivered))
    && (forall id | id in published[from..] :: id in delivered || id in dropped)
    && (forall id | id in delivered && id != 0 :: id in published[from..] && id !in dropped)
    && (forall id | id in dropped && id != 0 :: id in published[from..])
  }

  /** What was sent is what the filter makes of the history and what was received after it. */
  predicate ClientValid(s: State) {
    && (s.client == Connecting || s.client == Subscribed ==> s.last == s.initial && s.sent == [])
    && (s.client == Subscribed ==> s.received == [])
    && (s.client == Streaming ==>
          && s.from <= s.historyAt <= |s.table|
          && Sent(s.sent, s.last) == SendAll(s.initial, HistoryOf(s) + s.received))
  }

  /** The history the client was sent. */
  function HistoryOf(s: State): seq<Id>
    requires s.historyAt <= |s.table|
  {
    History(s.table[..s.historyAt], s.initial)
  }

  ghost predicate StreamValid(s: State) {
    && WriterValid(s)
    && ClientValid(s)
    && (Listening(s) ==> TrafficValid(Published(s), s.from, s.received + s.channel, s.dropped))
  }

  lemma AppendKeeps(s: State, id: Id)
    requires StreamValid(s)
    ensures StreamValid(Next(s, Append(id)))
  {
    var s' := Next(s, Append(id));
    if s' != s {
      assert Published(s') == Published(s) == s.table;
      assert WriterValid(s');
      if s.client == Streaming {
        assert s'.table[..s.historyAt] == s.table[..s.historyAt];
      }
    }
  }

  /** The newest line is above every line published since the client subscribed. */
  lemma NewestIsAbove(published: seq<Id>, from: nat, id: Id)
    requires from <= |published| && Increasing(published + [id])
    ensures (published + [id])[from..] == published[from..] + [id]
    ensures forall x | x in published[from..] :: x < id
  {
    var recent := published[from..];
    forall i | 0 <= i < |recent| ensures recent[i] < id {
      assert (published + [id])[from + i] < (published + [id])[|published|];
    }
  }

  lemma TrafficDelivers(published: seq<Id>, from: nat, delivered: seq<Id>, dropped: set<Id>, id: Id)
    requires TrafficValid(published, from, delivered, dropped) && id != 0 && Increasing(published + [id])
    ensures TrafficValid(published + [id], from, delivered + [id], dropped)
  {
    NewestIsAbove(published, from, id);
    NumberedSnoc(delivered, id);
    var numbered := Numbered(delivered);
    forall i | 0 <= i < |numbered| ensures numbered[i] < id {
      NumberedMembers(delivered, numbered[i]);
    }
  }

  lemma TrafficDrops(published: seq<Id>, from: nat, delivered: seq<Id>, dropped: set<Id>, id: Id)
    requires TrafficValid(published, from, delivered, dropped) && id != 0 && Increasing(published + [id])
    ensures TrafficValid(published + [id], from, delivered, dropped + {id})
  {
    NewestIsAbove(published, from, id);
  }

  /** A line that could not be stored has no number and does not matter to the numbered ones. */
  lemma TrafficUnnumbered(published: seq<Id>, from: nat, delivered: seq<Id>, dropped: set<Id>)
    requires TrafficValid(published, from, delivered, dropped) && Above(published, 0)
    ensures TrafficValid(published, from, delivered + [0], dropped)
    ensures TrafficValid(published, from, delivered, dropped + {0})
  {
    NumberedSnoc(delivered, 0);
    assert Numbered(delivered) + [] == Numbered(delivered);
  }

  lemma PublishKeepsTraffic(s: State, delivered: bool)
    requires StreamValid(s) && s.writing != [] && Listening(s)
    ensures var s' := Next(s, Publish(delivered));
            TrafficValid(Published(s'), s'.from, s'.received + s'.channel, s'.dropped)
  {
    var id, arrived := s.writing[0], s.received + s.channel;
    assert s.received + (s.channel + [id]) == arrived + [id];
    if id == 0 {
      TrafficUnnumbered(s.table, s.from, arrived, s.dropped);
    } else {
      assert s.table == Published(s) + [id];
      if delivered && |s.channel| < CHANNEL_SIZE {
        TrafficDelivers(Published(s), s.from, arrived, s.dropped, id);
      } else {
        TrafficDrops(Published(s), s.from, arrived, s.dropped, id);
      }
    }
  }

  lemma PublishKeeps(s: State, delivered: bool)
    requires StreamValid(s)
    ensures StreamValid(Next(s, Publish(delivered)))
  {
    if s.writing != [] && Listening(s) {
      PublishKeepsTraffic(s, delivered);
    }
  }

  lemma SubscribeKeeps(s: State)
    requires StreamValid(s)
    ensures StreamValid(Next(s, Subscribe))
  {
    assert Published(s)[|Published(s)|..] == [];
    assert Numbered([]) == [];
  }

  lemma SendHistoryKeeps(s: State)
    requires StreamValid(s)
    ensures StreamValid(Next(s, SendHistory))
  {
    assert s.table[..|s.table|] == s.table;
    var history := History(s.table, s.initial);
    assert history + [] == history;
    assert [] + SendAll(s.initial, history).ids == SendAll(s.initial, history).ids;
  }

  lemma ReceiveKeeps(s: State)
    requires StreamValid(s) && s.client == Streaming && s.channel != []
    ensures StreamValid(Next(s, Receive))
  {
    var id, s' := s.channel[0], Next(s, Receive);
    assert s'.received + s'.channel == s.received + s.channel;
    assert Published(s') == Published(s) && HistoryOf(s') == HistoryOf(s);
    SendOneMore(s.initial, HistoryOf(s), s.received, id);
  }

  lemma SendOneMore(initial: Id, history: seq<Id>, received: seq<Id>, id: Id)
    ensures var before := SendAll(initial, history + received);
            var a := Advance(before.last, id);
            SendAll(initial, history + (received + [id]))
            == Sent(if a.send then before.ids + [id] else before.ids, a.last)
  {
    var arrived := history + received;
    assert history + (received + [id]) == arrived + [id];
    assert (arrived + [id])[..|arrived|] == arrived;
  }

  /** Every step of writer, bus and client keeps the invariant, whatever is dropped. */
  lemma StepKeepsStream(s: State, step: Step)
    requires StreamValid(s)
    ensures StreamValid(Next(s, step))
  {
    match step
    case Append(id) => AppendKeeps(s, id);
    case AppendFails => assert s.writing == [] ==> Published(Next(s, AppendFails)) == Published(s);
    case Publish(delivered) => PublishKeeps(s, delivered);
    case Subscribe => SubscribeKeeps(s);
    case SendHistory => SendHistoryKeeps(s);
    case Receive =>
      if s.client == Streaming && s.channel != [] {
        ReceiveKeeps(s);
      }
    case Leave =>
  }

  lemma {:induction false} RunKeepsStream(s: State, steps: seq<Step>)
    requires Start(s)
    ensures StreamValid(Run(s, steps))
  {
    if steps != [] {
      RunKeepsStream(s, steps[..|steps| - 1]);
      StepKeepsStream(Run(s, steps[..|steps| - 1]), steps[|steps| - 1]);
    }
  }

  // ---- when nothing is missed ----

  /**
    The history reaches back far enough: after a Last-Event-ID it covers all that
    was published before the client subscribed, without one it covers everything.
   */
  predicate Kept(s: State) {
    s.from <= |s.table| && s.historyAt <= |s.table| &&
    if s.initial > 0 then |Later(s.table[..s.from], s.initial)| <= HISTORY_LIMIT else s.historyAt <= HISTORY_LIMIT
  }

  /** Every dropped line the client has not seen is in the history it was sent. */
  predicate Filled(s: State)
    requires s.historyAt <= |s.table|
  {
    forall id | id in s.dropped && id > s.initial :: id in HistoryOf(s)
  }

  predicate Complete(s: State) {
    Kept(s) && Filled(s)
  }

  /** The client has been given everything that was published. */
  predicate CaughtUp(s: State) {
    s.client == Streaming && s.channel == [] && s.writing == []
  }

  /** Whether a line was sent: with the history, or received and above all of it. */
  predicate WasSent(s: State, id: Id)
    requires s.historyAt <= |s.table|
  {
    id in HistoryOf(s) || (id in s.received && id > LastOr(HistoryOf(s), s.initial))
  }

  lemma SentMembers(s: State)
    requires StreamValid(s) && s.client == Streaming
    ensures Increasing(Numbered(s.sent))
    ensures forall id :: id in Numbered(s.sent) <==> WasSent(s, id)
  {
    var table, history := s.table[..s.historyAt], HistoryOf(s);
    NumberedAppend(s.received, s.channel);
    PrefixIncreasing(Numbered(s.received), Numbered(s.received + s.channel));
    SentIsHistoryThenLater(table, s.initial, s.received);
    HistoryInOrder(table, s.initial);
    var last := LastOr(history, s.initial);
    var later := Later(Numbered(s.received), last);
    LaterIncreasing(Numbered(s.received), last);
    JoinIncreasing(history, later, s.initial);
    forall id ensures id in Numbered(s.sent) <==> WasSent(s, id) {
      LaterMembers(Numbered(s.received), last, id);
      NumberedMembers(s.received, id);
    }
  }

  lemma JoinIncreasing(a: seq<Id>, b: seq<Id>, last: Id)
    requires Increasing(a) && Increasing(b) && Above(b, LastOr(a, last))
    ensures Increasing(a + b)
  {
  }

  /** In ids that increase, one outside a beginning is above all of it, and in the rest. */
  lemma BeyondPrefix(ids: seq<Id>, n: nat, id: Id)
    requires Increasing(ids) && n <= |ids| && id in ids && id !in ids[..n]
    ensures forall i | 0 <= i < n :: ids[i] < id
    ensures id in ids[n..]
  {
    forall i | 0 <= i < n ensures ids[i] in ids[..n] {
      assert ids[i] == ids[..n][i];
    }
    var i :| 0 <= i < |ids| && ids[i] == id;
    assert i >= n;
    assert ids[n..][i - n] == id;
  }

  /** A line after the client's id that its history leaves out is newer than all of it. */
  lemma LeftOutIsNewer(s: State, id: Id)
    requires WriterValid(s) && Kept(s) && s.from <= s.historyAt
    requires id in s.table && id > s.initial && id !in HistoryOf(s)
    ensures id > LastOr(HistoryOf(s), s.initial)
    ensures id !in s.table[..s.from]
  {
    if s.initial > 0 {
      LeftOutOfFirst(s.table, s.historyAt, s.initial, id);
      PrefixOfPrefix(s.table, s.from, s.historyAt, s.initial);
      LaterMembers(s.table[..s.from], s.initial, id);
    } else {
      assert HistoryOf(s) == s.table[..s.historyAt];
      BeyondPrefix(s.table, s.historyAt, id);
      forall i | 0 <= i < s.from ensures s.table[..s.from][i] != id {}
    }
  }

  lemma LeftOutOfFirst(table: seq<Id>, at: nat, last: Id, id: Id)
    requires Increasing(table) && at <= |table| && id in table && id > last
    requires id !in First(Later(table[..at], last), HISTORY_LIMIT)
    ensures id > LastOr(First(Later(table[..at], last), HISTORY_LIMIT), last)
  {
    var later := Later(table[..at], last);
    var first := First(later, HISTORY_LIMIT);
    LaterIncreasing(table[..at], last);
    LaterMembers(table[..at], last, id);
    assert first == later[..|first|];
    if id in table[..at] {
      BeyondPrefix(later, |first|, id);
    } else if first != [] {
      BeyondPrefix(table, at, id);
      LaterMembers(table[..at], last, first[|first| - 1]);
    }
  }

  lemma {:induction false} LaterPrefix(table: seq<Id>, last: Id, n: nat)
    requires n <= |table|
    ensures Later(table[..n], last) <= Later(table, last)
    decreases |table|
  {
    if n == |table| {
      assert table[..n] == table;
    } else {
      assert table[..|table| - 1][..n] == table[..n];
      LaterPrefix(table[..|table| - 1], last, n);
    }
  }

  /** What is later among fewer lines comes first among more. */
  lemma PrefixOfPrefix(table: seq<Id>, from: nat, at: nat, last: Id)
    requires from <= at <= |table|
    ensures Later(table[..from], last) <= Later(table[..at], last)
    ensures |Later(table[..from], last)| <= HISTORY_LIMIT ==>
              Later(table[..from], last) <= First(Later(table[..at], last), HISTORY_LIMIT)
  {
    assert table[..at][..from] == table[..from];
    LaterPrefix(table[..at], last, from);
  }

  /** With a complete history, every line after the client's id is sent, still to be received or not published yet. */
  lemma NothingIsLost(s: State, id: Id)
    requires StreamValid(s) && s.client == Streaming && Complete(s) && id in Published(s) && id > s.initial
    ensures WasSent(s, id) || id in s.channel
  {
    if id !in HistoryOf(s) {
      LeftOutIsNewer(s, id);
      assert Published(s)[..s.from] == s.table[..s.from];
      BeyondPrefix(Published(s), s.from, id);
      assert id in s.received + s.channel;
    }
  }

  lemma SentIsStored(s: State, id: Id)
    requires StreamValid(s) && s.client == Streaming && WasSent(s, id)
    ensures id in s.table && id > s.initial
  {
    HistoryInOrder(s.table[..s.historyAt], s.initial);
    if id !in HistoryOf(s) {
      assert id in s.received + s.channel;
      assert id in Published(s)[s.from..];
    }
  }

  lemma SameLast(a: seq<Id>, b: seq<Id>)
    requires a != [] && b != [] && Increasing(a) && Increasing(b)
    requires a[|a| - 1] in b && b[|b| - 1] in a
    ensures a[|a| - 1] == b[|b| - 1]
  {
  }

  lemma {:induction false} SameIncreasing(a: seq<Id>, b: seq<Id>)
    requires Increasing(a) && Increasing(b) && forall id :: id in a <==> id in b
    ensures a == b
    decreases |a|
  {
    if b != [] {
      assert b[|b| - 1] in b && b[|b| - 1] in a;
    }
    if a != [] {
      assert a[|a| - 1] in a && a[|a| - 1] in b;
      SameLast(a, b);
      var a', b' := a[..|a| - 1], b[..|b| - 1];
      forall id ensures id in a' <==> id in b' {
        SplitLast(a, id);
        SplitLast(b, id);
      }
      SameIncreasing(a', b');
      assert a == a' + [a[|a| - 1]] && b == b' + [b[|b| - 1]];
    }
  }

  lemma SplitLast(ids: seq<Id>, id: Id)
    requires ids != [] && Increasing(ids)
    ensures id in ids[..|ids| - 1] <==> id in ids && id != ids[|ids| - 1]
  {
    assert ids == ids[..|ids| - 1] + [ids[|ids| - 1]];
  }

  /** Ids in order that leave nothing out below them are a beginning of the whole. */
  lemma {:induction false} DownwardIsPrefix(a: seq<Id>, b: seq<Id>)
    requires Increasing(a) && Increasing(b) && (forall id | id in a :: id in b)
    requires forall x, y | x in a && y in b && y < x :: y in a
    ensures a <= b
    decreases |b|
  {
    if a != [] {
      assert a[0] in a && a[0] in b;
    }
    if b != [] {
      var init, x := b[..|b| - 1], b[|b| - 1];
      if x in a {
        forall id ensures id in a <==> id in b {
          assert id in b && id != x ==> id < x;
        }
        SameIncreasing(a, b);
      } else {
        forall id | id in a ensures id in init {
          SplitLast(b, id);
        }
        forall y | y in init ensures y in b {
          SplitLast(b, y);
        }
        DownwardIsPrefix(a, init);
      }
    }
  }

  /** With a complete history, no line below one that was sent is left out. */
  lemma SentIsDownward(s: State, x: Id, y: Id)
    requires StreamValid(s) && s.client == Streaming && Complete(s)
    requires WasSent(s, x) && y in s.table && s.initial < y < x
    ensures WasSent(s, y)
  {
    SentIsStored(s, x);
    if y !in HistoryOf(s) {
      LeftOutIsNewer(s, y);
      HistoryBelowLast(s, x);
      assert x in s.received;
      PublishedBelow(s, x, y);
      NothingIsLost(s, y);
      ReceivedBeforeWaiting(s, x, y);
    }
  }

  lemma HistoryBelowLast(s: State, id: Id)
    requires WriterValid(s) && s.historyAt <= |s.table|
    ensures id in HistoryOf(s) ==> id <= LastOr(HistoryOf(s), s.initial)
  {
    HistoryInOrder(s.table[..s.historyAt], s.initial);
  }

  lemma PublishedBelow(s: State, x: Id, y: Id)
    requires StreamValid(s) && s.client == Streaming && x in s.received && x != 0 && y in s.table && y < x
    ensures y in Published(s)
  {
    assert x in s.received + s.channel;
    assert x in Published(s)[s.from..];
    var i :| 0 <= i < |Published(s)| && Published(s)[i] == x;
    var j :| 0 <= j < |s.table| && s.table[j] == y;
    assert s.table[i] == x && j < i;
    assert Published(s)[j] == y;
  }

  /** Lines still waiting are above every line received. */
  lemma ReceivedBeforeWaiting(s: State, x: Id, y: Id)
    requires Increasing(Numbered(s.received + s.channel)) && x in s.received && x != 0 && y < x && y != 0
    ensures y !in s.channel
  {
    NumberedAppend(s.received, s.channel);
    NumberedMembers(s.received, x);
    NumberedMembers(s.channel, y);
    var a, b := Numbered(s.received), Numbered(s.channel);
    forall i, j | 0 <= i < |a| && 0 <= j < |b| ensures a[i] < b[j] {
      assert (a + b)[i] < (a + b)[|a| + j];
    }
  }

  /**
    Over every interleaving, if the history reaches back far enough and every line
    dropped on the way is part of it, a client was sent a gapless beginning of the
    lines after its Last-Event-ID, and all of them once it has caught up.
   */
  lemma NothingIsMissed(s: State, steps: seq<Step>)
    requires Start(s)
    ensures var r := Run(s, steps);
            r.client == Streaming && Complete(r) ==>
              && Numbered(r.sent) <= Later(r.table, r.initial)
              && (CaughtUp(r) ==> Numbered(r.sent) == Later(r.table, r.initial))
  {
    RunKeepsStream(s, steps);
    var r := Run(s, steps);
    if r.client == Streaming && Complete(r) {
      GaplessSoFar(r);
      if CaughtUp(r) {
        AllWhenCaughtUp(r);
      }
    }
  }

  lemma GaplessSoFar(s: State)
    requires StreamValid(s) && s.client == Streaming && Complete(s)
    ensures Numbered(s.sent) <= Later(s.table, s.initial)
  {
    SentMembers(s);
    LaterIncreasing(s.table, s.initial);
    var sent, all := Numbered(s.sent), Later(s.table, s.initial);
    forall id | id in sent ensures id in all {
      SentIsStored(s, id);
      LaterMembers(s.table, s.initial, id);
    }
    forall x, y | x in sent && y in all && y < x ensures y in sent {
      LaterMembers(s.table, s.initial, y);
      SentIsDownward(s, x, y);
    }
    DownwardIsPrefix(sent, all);
  }

  lemma AllWhenCaughtUp(s: State)
    requires StreamValid(s) && CaughtUp(s) && Complete(s)
    ensures Numbered(s.sent) == Later(s.table, s.initial)
  {
    SentMembers(s);
    LaterIncreasing(s.table, s.initial);
    forall id: Id ensures id in Numbered(s.sent) <==> id in Later(s.table, s.initial) {
      LaterMembers(s.table, s.initial, id);
      if id in s.table && id > s.initial {
        NothingIsLost(s, id);
      }
      if WasSent(s, id) {
        SentIsStored(s, id);
      }
    }
    SameIncreasing(Numbered(s.sent), Later(s.table, s.initial));
  }

  // ---- and otherwise something is ----

  /** A line the history was cut before: the first beyond its limit, or without an id the oldest of all. */
  lemma CutLosesLine(s: State) returns (lost: Id)
    requires StreamValid(s) && s.client == Streaming && !Kept(s)
    ensures lost in s.table && lost > s.initial && !WasSent(s, lost)
  {
    var table := s.table[..s.historyAt];
    HistoryInOrder(table, s.initial);
    if s.initial > 0 {
      var early := Later(s.table[..s.from], s.initial);
      lost := early[HISTORY_LIMIT];
      LaterMembers(s.table[..s.from], s.initial, lost);
      PrefixOfPrefix(s.table, s.from, s.historyAt, s.initial);
      LaterIncreasing(table, s.initial);
      assert Later(table, s.initial)[HISTORY_LIMIT] == lost;
      EarlyIsNotReceived(s, lost);
    } else {
      lost := s.table[0];
      assert forall i | 0 <= i < |HistoryOf(s)| :: lost < HistoryOf(s)[i];
    }
  }

  lemma EarlyIsNotReceived(s: State, id: Id)
    requires StreamValid(s) && s.client == Streaming && id in s.table[..s.from] && id != 0
    ensures id !in s.received
  {
    var early, recent := s.table[..s.from], Published(s)[s.from..];
    forall i, j | 0 <= i < |early| && 0 <= j < |recent| ensures early[i] != recent[j] {
      assert s.table[i] < s.table[s.from + j];
    }
    assert id in s.received ==> id in s.received + s.channel;
  }

  /**
    A client that has caught up was sent exactly the lines after its Last-Event-ID
    if and only if the history reached back far enough and held every line that
    was dropped.
   */
  lemma NothingIsMissedExactly(s: State, steps: seq<Step>)
    requires Start(s) && CaughtUp(Run(s, steps))
    ensures var r := Run(s, steps);
            Numbered(r.sent) == Later(r.table, r.initial) <==> Complete(r)
  {
    var r := Run(s, steps);
    RunKeepsStream(s, steps);
    if Complete(r) {
      AllWhenCaughtUp(r);
    } else {
      SentMembers(r);
      var lost: Id;
      if !Kept(r) {
        lost := CutLosesLine(r);
      } else {
        lost :| lost in r.dropped && lost > r.initial && lost !in HistoryOf(r);
        DroppedIsStored(r, lost);
      }
      LaterMembers(r.table, r.initial, lost);
    }
  }

  lemma DroppedIsStored(s: State, id: Id)
    requires StreamValid(s) && s.client == Streaming && id in s.dropped && id != 0
    ensures id in s.table && id !in s.received
  {
    assert id in Published(s)[s.from..];
    assert id in s.received ==> id in s.received + s.channel;
  }

  // ---- a channel's room ----

  /** A channel never holds more than 32 events, over every run. */
  lemma {:induction false} ChannelIsBounded(s: State, steps: seq<Step>)
    requires |s.channel| <= 32
    ensures |Run(s, steps).channel| <= 32
  {
    if steps != [] {
      ChannelIsBounded(s, steps[..|steps| - 1]);
    }
  }

  // ---- lines without a number, and what a history is ----

  lemma {:induction false} UnnumberedIsSent(last: Id, ids: seq<Id>)
    ensures multiset(SendAll(last, ids).ids)[0] == multiset(ids)[0]
    decreases |ids|
  {
    if ids != [] {
      UnnumberedIsSent(last, ids[..|ids| - 1]);
      assert ids == ids[..|ids| - 1] + [ids[|ids| - 1]];
    }
  }

  /** Without a Last-Event-ID the history is the newest lines, at most 500: whatever it leaves out is older. */
  lemma HistoryIsNewest(table: seq<Id>)
    requires Increasing(table) && Above(table, 0)
    ensures |History(table, 0)| == if |table| <= 500 then |table| else 500
    ensures forall x, y | x in History(table, 0) && y in table && y !in History(table, 0) :: x in table && y < x
  {
    var history := History(table, 0);
    var skip := |table| - |history|;
    assert history == table[skip..];
    forall x, y | x in history && y in table && y !in history ensures x in table && y < x {
      var i :| 0 <= i < |history| && history[i] == x;
      var j :| 0 <= j < |table| && table[j] == y;
      assert table[skip + i] == x;
      forall k | skip <= k < |table| ensures table[k] in history {
        assert history[k - skip] == table[k];
      }
    }
  }

  /** After a Last-Event-ID it is the lines that follow, at most 500: whatever later line it leaves out is newer. */
  lemma HistoryIsNext(table: seq<Id>, last: Id)
    requires Increasing(table) && last > 0
    ensures |History(table, last)| == if |Later(table, last)| <= 500 then |Later(table, last)| else 500
    ensures forall x | x in History(table, last) :: x in table && x > last
    ensures forall x, y | x in History(table, last) && y in table && y > last && y !in History(table, last) :: x < y
  {
    var history, later := History(table, last), Later(table, last);
    LaterIncreasing(table, last);
    assert history == later[..|history|];
    forall x | x in history ensures x in table && x > last {
      LaterMembers(table, last, x);
    }
    forall x, y | x in history && y in table && y > last && y !in history ensures x < y {
      LaterMembers(table, last, y);
      BeyondPrefix(later, |history|, y);
    }
  }

  // ---- the handler ----

  /** The history loop of streamDeploymentLogs. */
  method WriteHistory(history: seq<Id>, initial: Id) returns (written: seq<Id>, last: Id)
    ensures Sent(written, last) == SendAll(initial, history)
  {
    written, last := [], initial;
    for i := 0 to |history|
      invariant Sent(written, last) == SendAll(initial, history[..i])
    {
      assert history[..i + 1][..i] == history[..i];
      var a := Advance(last, history[i]);
      last := a.last;
      if a.send {
        written := written + [history[i]];
      }
    }
    assert history[..|history|] == history;
  }
}
