/** The tables of scheduled messages: rows are inserted once per message, sent to the network simulator, erased on
    reception and dropped when they are too old. */
module ScheduledTables {

  /** Unicast rows are told apart by sender and receiver, geo- and topobroadcast rows by sender. */
  datatype Route = Pair(sender: nat, receiver: nat) | Broadcast(from: nat)

  datatype Key = Key(route: Route, timeStep: nat, sequence: nat)

  datatype Row = Row(key: Key, appMessageId: int)

  ghost predicate Has(table: seq<Row>, key: Key) { exists i :: 0 <= i < |table| && table[i].key == key }

  ghost predicate Unique(table: seq<Row>) { forall i, j :: 0 <= i < j < |table| ==> table[i].key != table[j].key }

  /** A call to schedule: the route, how many messages, their application id, and whether commands are sent at all
      (not for a topobroadcast of the management centre, whose rows are inserted all the same). */
  datatype Call = Call(route: Route, frequency: int, appMessageId: int, sends: bool)

  /** The simulator's replies to the commands of one call, by sequence number. */
  type Replies = nat -> bool

  /** Table, commands sent (by message key) and success of a call. */
  datatype Outcome = Outcome(table: seq<Row>, commands: seq<Key>, ok: bool)

  ghost function Scheduled(table: seq<Row>, call: Call, timeStep: nat, replies: Replies, i: nat): Outcome
    decreases call.frequency - i
  {
    if i >= call.frequency then Outcome(table, [], true)
    else
      var key := Key(call.route, timeStep, i);
      if Has(table, key) then Scheduled(table, call, timeStep, replies, i + 1)
      else
        var table' := table + [Row(key, call.appMessageId)];
        if !call.sends then Scheduled(table', call, timeStep, replies, i + 1)
        else if !replies(i) then Outcome(table', [key], false)
        else
          var r := Scheduled(table', call, timeStep, replies, i + 1);
          Outcome(r.table, [key] + r.commands, r.ok)
  }

  /** A command the call would send and the simulator would refuse. */
  ghost predicate Refused(table: seq<Row>, call: Call, timeStep: nat, replies: Replies, q: nat) {
    q < call.frequency && !Has(table, Key(call.route, timeStep, q)) && call.sends && !replies(q)
  }

  lemma HasAppend(table: seq<Row>, row: Row)
    ensures forall key :: Has(table + [row], key) <==> Has(table, key) || key == row.key
  {
    forall key | Has(table, key) ensures Has(table + [row], key) {
      var i :| 0 <= i < |table| && table[i].key == key;
      assert (table + [row])[i].key == key;
    }
    assert (table + [row])[|table|].key == row.key;
  }

  lemma UniqueAppend(table: seq<Row>, row: Row)
    requires Unique(table) && !Has(table, row.key)
    ensures Unique(table + [row])
  {
  }

  /** What the rest of a call does from message `i` on. */
  ghost predicate Fills(table: seq<Row>, call: Call, timeStep: nat, replies: Replies, i: nat, r: Outcome) {
    && Unique(r.table)
    && (r.ok <==> forall q :: i <= q ==> !Refused(table, call, timeStep, replies, q))
    && (forall key :: Has(r.table, key) <==> Has(table, key) || Added(table, call, timeStep, replies, i, key))
    && |table| <= |r.table| && r.table[..|table|] == table
  }

  /** The keys a call adds: one for each message up to the first refused one, that one included. */
  ghost predicate Added(table: seq<Row>, call: Call, timeStep: nat, replies: Replies, i: nat, key: Key) {
    && key.route == call.route && key.timeStep == timeStep && i <= key.sequence < call.frequency
    && forall q :: i <= q < key.sequence ==> !Refused(table, call, timeStep, replies, q)
  }

  /** A call never makes a second row of the same key; it succeeds unless a command is refused, and then the rows up
      to and including that of the refused command are there. */
  lemma {:induction false} ScheduledFills(table: seq<Row>, call: Call, timeStep: nat, replies: Replies, i: nat)
    requires Unique(table)
    ensures Fills(table, call, timeStep, replies, i, Scheduled(table, call, timeStep, replies, i))
    decreases call.frequency - i
  {
    hide *;
    var r := Scheduled(table, call, timeStep, replies, i);
    ScheduledCases(table, call, timeStep, replies, i);
    if i >= call.frequency {
      FillsNothing(table, call, timeStep, replies, i);
    } else {
      var key := Key(call.route, timeStep, i);
      var table' := table + [Row(key, call.appMessageId)];
      if Has(table, key) {
        ScheduledFills(table, call, timeStep, replies, i + 1);
        FillsSkip(table, call, timeStep, replies, i, r);
      } else if call.sends && !replies(i) {
        FillsRefused(table, call, timeStep, replies, i);
      } else {
        UniqueAppend(table, Row(key, call.appMessageId));
        ScheduledFills(table', call, timeStep, replies, i + 1);
        FillsNext(table, call, timeStep, replies, i, Scheduled(table', call, timeStep, replies, i + 1), r);
      }
    }
  }

  /** The four cases of a call, without the commands. */
  lemma ScheduledCases(table: seq<Row>, call: Call, timeStep: nat, replies: Replies, i: nat)
    ensures var r, key := Scheduled(table, call, timeStep, replies, i), Key(call.route, timeStep, i);
      var table' := table + [Row(key, call.appMessageId)];
      if i >= call.frequency then r == Outcome(table, [], true)
      else if Has(table, key) then r == Scheduled(table, call, timeStep, replies, i + 1)
      else if call.sends && !replies(i) then r == Outcome(table', [key], false)
      else var rest := Scheduled(table', call, timeStep, replies, i + 1); r.table == rest.table && r.ok == rest.ok
  {
  }

  lemma FillsNothing(table: seq<Row>, call: Call, timeStep: nat, replies: Replies, i: nat)
    requires Unique(table) && i >= call.frequency
    ensures Fills(table, call, timeStep, replies, i, Outcome(table, [], true))
  {
  }

  lemma FillsSkip(table: seq<Row>, call: Call, timeStep: nat, replies: Replies, i: nat, r: Outcome)
    requires i < call.frequency && Has(table, Key(call.route, timeStep, i))
    requires Fills(table, call, timeStep, replies, i + 1, r)
    ensures Fills(table, call, timeStep, replies, i, r)
  {
    AddedSkip(table, call, timeStep, replies, i);
    hide Has, Added, Unique, Refused;
  }

  lemma FillsRefused(table: seq<Row>, call: Call, timeStep: nat, replies: Replies, i: nat)
    requires Unique(table) && i < call.frequency && !Has(table, Key(call.route, timeStep, i)) && call.sends
    requires !replies(i)
    ensures var key := Key(call.route, timeStep, i);
      Fills(table, call, timeStep, replies, i, Outcome(table + [Row(key, call.appMessageId)], [key], false))
  {
    var key := Key(call.route, timeStep, i);
    HasAppend(table, Row(key, call.appMessageId));
    UniqueAppend(table, Row(key, call.appMessageId));
    hide Has, Unique;
    assert Refused(table, call, timeStep, replies, i);
    assert forall k :: Added(table, call, timeStep, replies, i, k) <==> k == key;
  }

  lemma FillsNext(table: seq<Row>, call: Call, timeStep: nat, replies: Replies, i: nat, rest: Outcome, r: Outcome)
    requires i < call.frequency && !Has(table, Key(call.route, timeStep, i)) && (call.sends ==> replies(i))
    requires Fills(table + [Row(Key(call.route, timeStep, i), call.appMessageId)], call, timeStep, replies, i + 1, rest)
    requires r.table == rest.table && r.ok == rest.ok
    ensures Fills(table, call, timeStep, replies, i, r)
  {
    var row := Row(Key(call.route, timeStep, i), call.appMessageId);
    HasAppend(table, row);
    AddedNext(table, call, timeStep, replies, i);
    hide Has, Added, Unique, Refused;
    assert (table + [row])[..|table|] == table;
  }

  lemma AddedSkip(table: seq<Row>, call: Call, timeStep: nat, replies: Replies, i: nat)
    requires i < call.frequency && Has(table, Key(call.route, timeStep, i))
    ensures !Refused(table, call, timeStep, replies, i)
    ensures forall key :: !Has(table, key) ==>
      (Added(table, call, timeStep, replies, i, key) <==> Added(table, call, timeStep, replies, i + 1, key))
  {
  }

  lemma AddedNext(table: seq<Row>, call: Call, timeStep: nat, replies: Replies, i: nat)
    requires i < call.frequency && !Has(table, Key(call.route, timeStep, i)) && (call.sends ==> replies(i))
    ensures var table' := table + [Row(Key(call.route, timeStep, i), call.appMessageId)];
      && !Refused(table, call, timeStep, replies, i)
      && (forall q :: i + 1 <= q ==>
        (Refused(table', call, timeStep, replies, q) <==> Refused(table, call, timeStep, replies, q)))
      && (forall key :: Added(table, call, timeStep, replies, i, key) <==>
            key == Key(call.route, timeStep, i) || Added(table', call, timeStep, replies, i + 1, key))
  {
    var row := Row(Key(call.route, timeStep, i), call.appMessageId);
    HasAppend(table, row);
    var table' := table + [row];
    assert forall q :: i + 1 <= q ==>
      (Refused(table', call, timeStep, replies, q) <==> Refused(table, call, timeStep, replies, q));
    hide Refused;
  }

  /** One command for each inserted row, in order, when commands are sent. */
  lemma {:induction false} CommandsAreRows(table: seq<Row>, call: Call, timeStep: nat, replies: Replies, i: nat)
    ensures var r := Scheduled(table, call, timeStep, replies, i);
      && |table| <= |r.table|
      && (forall k :: |table| <= k < |r.table| ==> r.table[k].appMessageId == call.appMessageId)
      && (!call.sends ==> r.commands == [])
      && (call.sends ==> |r.commands| == |r.table| - |table|)
      && (call.sends ==> forall k :: 0 <= k < |r.commands| ==>
        r.table[|table| + k] == Row(r.commands[k], call.appMessageId))
    decreases call.frequency - i
  {
    if i < call.frequency {
      var key := Key(call.route, timeStep, i);
      if Has(table, key) {
        CommandsAreRows(table, call, timeStep, replies, i + 1);
      } else {
        var row := Row(key, call.appMessageId);
        ScheduledPrefix(table + [row], call, timeStep, replies, i + 1);
        CommandsAreRows(table + [row], call, timeStep, replies, i + 1);
      }
    }
  }

  lemma {:induction false} ScheduledPrefix(table: seq<Row>, call: Call, timeStep: nat, replies: Replies, i: nat)
    ensures var r := Scheduled(table, call, timeStep, replies, i); |table| <= |r.table| && r.table[..|table|] == table
    decreases call.frequency - i
  {
    if i < call.frequency {
      var key := Key(call.route, timeStep, i);
      if Has(table, key) {
        ScheduledPrefix(table, call, timeStep, replies, i + 1);
      } else {
        ScheduledPrefix(table + [Row(key, call.appMessageId)], call, timeStep, replies, i + 1);
      }
    }
  }

  /** Commands are sent for messages that had no row, and have one afterwards. */
  lemma {:induction false} CommandsAreNew(table: seq<Row>, call: Call, timeStep: nat, replies: Replies, i: nat,
                                          key: Key)
    ensures var r := Scheduled(table, call, timeStep, replies, i);
      && (key in r.commands ==>
        key.route == call.route && key.timeStep == timeStep && !Has(table, key) && Has(r.table, key))
      && (Has(table, key) ==> Has(r.table, key))
    decreases call.frequency - i
  {
    if i < call.frequency {
      var first := Key(call.route, timeStep, i);
      var table' := table + [Row(first, call.appMessageId)];
      HasAppend(table, Row(first, call.appMessageId));
      CommandsAreNew(if Has(table, first) then table else table', call, timeStep, replies, i + 1, key);
      hide Has;
    }
  }

  // ---------------------------------------------------------------- sequence numbers of one step

  /** The sequence numbers of a route at a time step are exactly those below `m`. */
  ghost predicate Dense(table: seq<Row>, route: Route, timeStep: nat, m: nat) {
    forall q: nat :: Has(table, Key(route, timeStep, q)) <==> q < m
  }

  function Max(a: int, b: int): int { if a < b then b else a }

  lemma DenseGrows(table: seq<Row>, call: Call, timeStep: nat, replies: Replies, route: Route, m: nat)
    requires Unique(table) && Dense(table, route, timeStep, m) && Scheduled(table, call, timeStep, replies, 0).ok
    ensures Dense(Scheduled(table, call, timeStep, replies, 0).table, route, timeStep,
      if route == call.route then Max(m, call.frequency) else m)
  {
    ScheduledFills(table, call, timeStep, replies, 0);
    hide Scheduled, Has;
    assert forall q :: 0 <= q ==> !Refused(table, call, timeStep, replies, q);
  }

  /** The calls of one step, one after the other. */
  ghost function AllScheduled(table: seq<Row>, calls: seq<(Call, Replies)>, timeStep: nat): Outcome {
    if calls == [] then Outcome(table, [], true)
    else
      var before := AllScheduled(table, calls[..|calls| - 1], timeStep);
      var r := Scheduled(before.table, calls[|calls| - 1].0, timeStep, calls[|calls| - 1].1, 0);
      Outcome(r.table, before.commands + r.commands, before.ok && r.ok)
  }

  /** A message with a row keeps it, and is not sent, in all calls of a step. */
  lemma {:induction false} RowIsNotSent(table: seq<Row>, calls: seq<(Call, Replies)>, timeStep: nat, key: Key)
    requires Has(table, key)
    ensures var r := AllScheduled(table, calls, timeStep); Has(r.table, key) && key !in r.commands
  {
    if calls != [] {
      var n := |calls| - 1;
      RowIsNotSent(table, calls[..n], timeStep, key);
      CommandsAreNew(AllScheduled(table, calls[..n], timeStep).table, calls[n].0, timeStep, calls[n].1, 0, key);
      hide Has, Scheduled;
    }
  }

  lemma NewRowBehind(table: seq<Row>, longer: seq<Row>, i: nat)
    requires |table| <= |longer| && longer[..|table|] == table && i < |longer| && !Has(table, longer[i].key)
    ensures |table| <= i
  {
    assert forall k :: 0 <= k < |table| ==> table[k] == longer[k];
  }

  /** A message whose command was refused keeps its row, and none of the later calls of the step sends it. */
  lemma RefusedIsNotRetried(table: seq<Row>, call: Call, timeStep: nat, replies: Replies, later: seq<(Call, Replies)>,
                            q: nat)
    requires Unique(table) && Refused(table, call, timeStep, replies, q)
    requires forall p :: 0 <= p < q ==> !Refused(table, call, timeStep, replies, p)
    ensures var key, after := Key(call.route, timeStep, q), Scheduled(table, call, timeStep, replies, 0);
      && !after.ok && key in after.commands && Has(after.table, key)
      && Has(AllScheduled(after.table, later, timeStep).table, key)
      && key !in AllScheduled(after.table, later, timeStep).commands
  {
    var key, after := Key(call.route, timeStep, q), Scheduled(table, call, timeStep, replies, 0);
    ScheduledFills(table, call, timeStep, replies, 0);
    assert Added(table, call, timeStep, replies, 0, key);
    CommandsAreRows(table, call, timeStep, replies, 0);
    var i :| 0 <= i < |after.table| && after.table[i].key == key;
    NewRowBehind(table, after.table, i);
    assert after.table[|table| + (i - |table|)] == Row(after.commands[i - |table|], call.appMessageId);
    RowIsNotSent(after.table, later, timeStep, key);
  }

  function MaxFrequency(calls: seq<(Call, Replies)>, route: Route): nat {
    if calls == [] then 0
    else
      var before, last := MaxFrequency(calls[..|calls| - 1], route), calls[|calls| - 1].0;
      if last.route == route then Max(before, last.frequency) else before
  }

  /** When a time step has no rows yet and all calls succeed, each route ends with the sequence numbers below its
      highest frequency, whatever the order of the calls; one command was sent for each row when all calls send. */
  lemma {:induction false} CallsOfAStep(table: seq<Row>, calls: seq<(Call, Replies)>, timeStep: nat, route: Route)
    requires Unique(table) && (forall row :: row in table ==> row.key.timeStep != timeStep)
    requires AllScheduled(table, calls, timeStep).ok
    ensures Unique(AllScheduled(table, calls, timeStep).table)
    ensures Dense(AllScheduled(table, calls, timeStep).table, route, timeStep, MaxFrequency(calls, route))
    ensures (forall c :: c in calls ==> c.0.sends) ==>
      |AllScheduled(table, calls, timeStep).commands| == |AllScheduled(table, calls, timeStep).table| - |table|
  {
    if calls != [] {
      var n := |calls| - 1;
      CallsOfAStep(table, calls[..n], timeStep, route);
      var before := AllScheduled(table, calls[..n], timeStep);
      assert forall c :: c in calls[..n] ==> c in calls;
      hide Dense, Has, Unique, MaxFrequency;
      LastCall(before.table, calls, timeStep, route);
    } else {
      forall q: nat ensures !Has(table, Key(route, timeStep, q)) {
      }
    }
  }

  lemma LastCall(table: seq<Row>, calls: seq<(Call, Replies)>, timeStep: nat, route: Route)
    requires calls != [] && Unique(table) && Dense(table, route, timeStep, MaxFrequency(calls[..|calls| - 1], route))
    ensures var call, replies := calls[|calls| - 1].0, calls[|calls| - 1].1;
      var r := Scheduled(table, call, timeStep, replies, 0);
      && Unique(r.table)
      && (r.ok ==> Dense(r.table, route, timeStep, MaxFrequency(calls, route)))
      && (call.sends ==> |r.commands| == |r.table| - |table|)
  {
    var call, replies := calls[|calls| - 1].0, calls[|calls| - 1].1;
    ScheduledFills(table, call, timeStep, replies, 0);
    CommandsAreRows(table, call, timeStep, replies, 0);
    if Scheduled(table, call, timeStep, replies, 0).ok {
      DenseGrows(table, call, timeStep, replies, route, MaxFrequency(calls[..|calls| - 1], route));
    }
    hide Dense, Scheduled;
  }

  // ---------------------------------------------------------------- size

  ghost function Slice(route: Route, timeStep: nat, f: nat): set<Key> {
    set q: nat | 0 <= q < f :: Key(route, timeStep, q)
  }

  ghost function Column(route: Route, lo: int, hi: nat, f: nat): set<Key> {
    set t: nat, q: nat | lo < t <= hi && 0 <= q < f :: Key(route, t, q)
  }

  ghost function Box(routes: set<Route>, lo: int, hi: nat, f: nat): set<Key> {
    set r, t: nat, q: nat | r in routes && lo < t <= hi && 0 <= q < f :: Key(r, t, q)
  }

  lemma {:induction false} SliceSize(route: Route, timeStep: nat, f: nat)
    ensures |Slice(route, timeStep, f)| == f
  {
    if f > 0 {
      SliceSize(route, timeStep, f - 1);
      assert Slice(route, timeStep, f) == Slice(route, timeStep, f - 1) + {Key(route, timeStep, f - 1)};
    }
  }

  lemma {:induction false} ColumnSize(route: Route, lo: int, hi: nat, f: nat)
    requires lo <= hi
    ensures |Column(route, lo, hi, f)| <= (hi - lo) * f
    decreases hi
  {
    if hi == 0 || lo == hi {
      SliceSize(route, hi, f);
      if lo < hi {
        assert Column(route, lo, hi, f) == Slice(route, 0, f);
      } else {
        assert Column(route, lo, hi, f) == {};
      }
      assert f <= (hi - lo) * f || lo == hi;
    } else {
      ColumnSize(route, lo, hi - 1, f);
      SliceSize(route, hi, f);
      assert Column(route, lo, hi, f) == Column(route, lo, hi - 1, f) + Slice(route, hi, f);
      assert (hi - lo) * f == (hi - 1 - lo) * f + f;
    }
  }

  lemma {:induction false} BoxSize(routes: set<Route>, lo: int, hi: nat, f: nat)
    requires lo <= hi
    ensures |Box(routes, lo, hi, f)| <= |routes| * ((hi - lo) * f)
    decreases |routes|
  {
    if routes == {} {
      assert Box(routes, lo, hi, f) == {};
    } else {
      var r :| r in routes;
      BoxSize(routes - {r}, lo, hi, f);
      ColumnSize(r, lo, hi, f);
      assert Box(routes, lo, hi, f) == Box(routes - {r}, lo, hi, f) + Column(r, lo, hi, f);
      assert |routes| * ((hi - lo) * f) == (|routes| - 1) * ((hi - lo) * f) + (hi - lo) * f;
    }
  }

  ghost function Keys(table: seq<Row>): set<Key> { set row | row in table :: row.key }

  lemma {:induction false} UniqueSize(table: seq<Row>)
    requires Unique(table)
    ensures |Keys(table)| == |table|
  {
    if table != [] {
      var n := |table| - 1;
      UniqueSize(table[..n]);
      assert Keys(table) == Keys(table[..n]) + {table[n].key};
      assert table[n].key !in Keys(table[..n]);
    }
  }

  /** A table in which all rows are within the window holds at most one row for each route, time step and sequence
      number. */
  lemma SizeBound(table: seq<Row>, routes: set<Route>, lo: int, hi: nat, f: nat)
    requires Unique(table) && lo <= hi
    requires forall row :: row in table ==>
      row.key.route in routes && lo < row.key.timeStep <= hi && row.key.sequence < f
    ensures |table| <= |routes| * ((hi - lo) * f)
  {
    UniqueSize(table);
    BoxSize(routes, lo, hi, f);
    var box := Box(routes, lo, hi, f);
    assert Keys(table) <= box;
    SubsetSize(Keys(table), box);
  }

  lemma SubsetSize(a: set<Key>, b: set<Key>)
    requires a <= b
    ensures |a| <= |b|
  {
    assert b == a + (b - a);
  }

  // ---------------------------------------------------------------- the table over a run

  /** The rows that are not dropped, in order. */
  function Keep(table: seq<Row>, drop: Row -> bool): seq<Row> {
    if table == [] then [] else (if drop(table[0]) then [] else [table[0]]) + Keep(table[1..], drop)
  }

  lemma {:induction false} KeepRows(table: seq<Row>, drop: Row -> bool)
    ensures forall row :: row in Keep(table, drop) <==> row in table && !drop(row)
    ensures Unique(table) ==> Unique(Keep(table, drop))
  {
    if table != [] {
      KeepRows(table[1..], drop);
      assert forall row :: row in table <==> row == table[0] || row in table[1..];
      if Unique(table) {
        assert forall row :: row in table[1..] ==> row.key != table[0].key;
      }
    }
  }

  /** The clean-up window is -1 until it is configured. */
  function TooOld(step: nat, window: int): Row -> bool { (row: Row) => step >= row.key.timeStep + window }

  datatype Table = Table(step: nat, rows: seq<Row>)

  /** What happens to a table in a run. */
  datatype Action =
    | Arrange(call: Call, routable: bool, replies: Replies)
    | Arrive(matches: Row -> bool)
    | CleanUp
    | Tick

  ghost function Applied(lead: nat, window: int, s: Table, a: Action): Table {
    match a
    case Arrange(call, routable, replies) =>
      if routable then s.(rows := Scheduled(s.rows, call, s.step + lead, replies, 0).table) else s
    case Arrive(matches) => s.(rows := Keep(s.rows, matches))
    case CleanUp => s.(rows := Keep(s.rows, TooOld(s.step, window)))
    case Tick => s.(step := s.step + 1)
  }

  /** The table after any sequence of actions. */
  ghost function Run(lead: nat, window: int, actions: seq<Action>): Table {
    if actions == [] then Table(0, [])
    else Applied(lead, window, Run(lead, window, actions[..|actions| - 1]), actions[|actions| - 1])
  }

  /** A table, `lead` steps ahead of the clock: 1 for unicast rows, 0 for geo- and topobroadcast rows. */
  class MessageTable {
    const lead: nat
    const window: int
    var step: nat
    var table: seq<Row>
    ghost var commands: seq<Key>

    /** No message has two rows, and no row is for a later step than the one being scheduled. */
    ghost predicate Valid()
      reads this
    {
      Unique(table) && forall row :: row in table ==> row.key.timeStep <= step + lead
    }

    /** After a refresh: no row is older than the window either. */
    ghost predicate Fresh()
      reads this
    {
      Valid() && forall row :: row in table ==> step - window < row.key.timeStep
    }

    ghost function Now(): Table
      reads this
    {
      Table(step, table)
    }

    constructor (lead: nat, window: int)
      ensures Valid() && Now() == Table(0, []) && commands == []
      ensures this.lead == lead && this.window == window
    {
      this.lead, this.window, step, table, commands := lead, window, 0, [], [];
    }

    method FindRow(key: Key) returns (exists': bool)
      ensures exists' <==> Has(table, key)
    {
      exists' := false;
      for i := 0 to |table|
        invariant !exists' && forall k :: 0 <= k < i ==> table[k].key != key
      {
        if table[i].key == key {
          return true;
        }
      }
    }

    /** Schedules the messages of one call; `routable` is false when the destination, the radio technology or the
        service of the call is unknown. */
    method Schedule(call: Call, routable: bool, replies: Replies) returns (ok: bool)
      requires Valid()
      modifies this`table, this`commands
      ensures Valid() && Now() == Applied(lead, window, old(Now()), Arrange(call, routable, replies))
      ensures !routable ==> !ok && commands == old(commands)
      ensures routable ==> var r := Scheduled(old(table), call, step + lead, replies, 0);
        commands == old(commands) + r.commands && ok == r.ok
    {
      hide Scheduled, Unique, Has;
      if !routable {
        return false;
      }
      ScheduledFills(table, call, step + lead, replies, 0);
      AddedAtStep(table, call, step + lead, replies);
      ghost var r, sent := Scheduled(table, call, step + lead, replies, 0), [];
      var i := 0;
      while i < call.frequency
        invariant 0 <= i && commands == old(commands) + sent
        invariant r == After(sent, Scheduled(table, call, step + lead, replies, i))
        decreases call.frequency - i
      {
        ScheduledStep(table, call, step + lead, replies, i, sent);
        var key := Key(call.route, step + lead, i);
        var found := FindRow(key);
        if !found {
          table := table + [Row(key, call.appMessageId)];
          if call.sends {
            commands := commands + [key];
            sent := sent + [key];
            if !replies(i) {
              return false;
            }
          }
        }
        i := i + 1;
      }
      ScheduledEnd(table, call, step + lead, replies, i);
      return true;
    }

    /** Received messages leave the table. */
    method Receive(matches: Row -> bool)
      requires Valid()
      modifies this`table
      ensures Valid() && Now() == Applied(lead, window, old(Now()), Arrive(matches))
    {
      KeepRows(table, matches);
      Erase(matches);
    }

    /** Rows whose time is over leave the table. */
    method Refresh()
      requires Valid()
      modifies this`table
      ensures Fresh() && Now() == Applied(lead, window, old(Now()), CleanUp)
    {
      KeepRows(table, TooOld(step, window));
      Erase(TooOld(step, window));
    }

    /** Erases rows while going through the table. */
    method Erase(drop: Row -> bool)
      modifies this`table
      ensures table == Keep(old(table), drop)
    {
      var i := 0;
      while i < |table|
        invariant i <= |table| && table[..i] + Keep(table[i..], drop) == Keep(old(table), drop)
        decreases |table| - i
      {
        if drop(table[i]) {
          EraseStep(table, i, drop);
          table := table[..i] + table[i + 1..];
        } else {
          KeepStep(table, i, drop);
          i := i + 1;
        }
      }
      assert table[..i] == table && table[i..] == [];
    }

    /** The clock moves on; the step now scheduled has no rows yet. */
    method NextStep()
      requires Valid()
      modifies this`step
      ensures Valid() && Now() == Applied(lead, window, old(Now()), Tick)
      ensures forall row :: row in table ==> row.key.timeStep != step + lead
    {
      step := step + 1;
    }
  }

  ghost function After(sent: seq<Key>, r: Outcome): Outcome { Outcome(r.table, sent + r.commands, r.ok) }

  lemma ScheduledEnd(table: seq<Row>, call: Call, timeStep: nat, replies: Replies, i: nat)
    requires i >= call.frequency
    ensures Scheduled(table, call, timeStep, replies, i) == Outcome(table, [], true)
  {
  }

  lemma ScheduledStep(table: seq<Row>, call: Call, timeStep: nat, replies: Replies, i: nat, sent: seq<Key>)
    requires i < call.frequency
    ensures var key := Key(call.route, timeStep, i);
      var table' := table + [Row(key, call.appMessageId)];
      After(sent, Scheduled(table, call, timeStep, replies, i)) ==
        if Has(table, key) then After(sent, Scheduled(table, call, timeStep, replies, i + 1))
        else if !call.sends then After(sent, Scheduled(table', call, timeStep, replies, i + 1))
        else if !replies(i) then Outcome(table', sent + [key], false)
        else After(sent + [key], Scheduled(table', call, timeStep, replies, i + 1))
  {
    var key := Key(call.route, timeStep, i);
    var table' := table + [Row(key, call.appMessageId)];
    var r := Scheduled(table', call, timeStep, replies, i + 1);
    assert sent + ([key] + r.commands) == (sent + [key]) + r.commands;
  }

  lemma AddedAtStep(table: seq<Row>, call: Call, timeStep: nat, replies: Replies)
    requires Unique(table)
    ensures forall row :: row in Scheduled(table, call, timeStep, replies, 0).table ==>
      row.key.timeStep == timeStep || exists other :: other in table && other.key == row.key
  {
    ScheduledFills(table, call, timeStep, replies, 0);
    var r := Scheduled(table, call, timeStep, replies, 0);
    forall row | row in r.table && row.key.timeStep != timeStep
      ensures exists other :: other in table && other.key == row.key
    {
      var i :| 0 <= i < |r.table| && r.table[i] == row;
      assert Has(r.table, row.key);
      assert Has(table, row.key);
      var k :| 0 <= k < |table| && table[k].key == row.key;
      assert table[k] in table;
    }
  }

  lemma EraseStep(table: seq<Row>, i: nat, drop: Row -> bool)
    requires i < |table| && drop(table[i])
    ensures var t := table[..i] + table[i + 1..]; t[..i] == table[..i] && Keep(t[i..], drop) == Keep(table[i..], drop)
  {
    var t := table[..i] + table[i + 1..];
    assert t[i..] == table[i..][1..];
  }

  lemma KeepStep(table: seq<Row>, i: nat, drop: Row -> bool)
    requires i < |table| && !drop(table[i])
    ensures table[..i + 1] + Keep(table[i + 1..], drop) == table[..i] + Keep(table[i..], drop)
  {
    assert table[i..][1..] == table[i + 1..];
    assert table[..i + 1] == table[..i] + [table[i]];
  }

  /** All rows belong to the given routes, with sequence numbers below `f`. */
  ghost predicate Bounded(table: seq<Row>, routes: set<Route>, f: nat) {
    forall row :: row in table ==> row.key.route in routes && row.key.sequence < f
  }

  /** Calls for these routes with frequencies up to `f` keep the table bounded. */
  lemma StaysBounded(table: seq<Row>, routes: set<Route>, f: nat, call: Call, timeStep: nat, replies: Replies)
    requires Unique(table) && Bounded(table, routes, f) && call.route in routes && call.frequency <= f
    ensures Bounded(Scheduled(table, call, timeStep, replies, 0).table, routes, f)
  {
    ScheduledFills(table, call, timeStep, replies, 0);
    var r := Scheduled(table, call, timeStep, replies, 0);
    hide Scheduled, Unique;
    forall row | row in r.table ensures row.key.route in routes && row.key.sequence < f {
      var i :| 0 <= i < |r.table| && r.table[i] == row;
      assert Has(r.table, row.key);
      if Has(table, row.key) {
        var k :| 0 <= k < |table| && table[k].key == row.key;
        assert table[k] in table;
      }
    }
  }

  /** The calls among the actions are for these routes, with frequencies up to `f`. */
  ghost predicate CallsWithin(actions: seq<Action>, routes: set<Route>, f: nat) {
    forall i :: 0 <= i < |actions| && actions[i].Arrange? ==>
      actions[i].call.route in routes && actions[i].call.frequency <= f
  }

  /** In every run no message ever has two rows, none is for a later step than the one being scheduled, and all are of
      the routes and sequence numbers of the calls. */
  lemma {:induction false} RunKeeps(lead: nat, window: int, actions: seq<Action>, routes: set<Route>, f: nat)
    requires CallsWithin(actions, routes, f)
    ensures var s := Run(lead, window, actions);
      && Unique(s.rows) && Bounded(s.rows, routes, f)
      && forall row :: row in s.rows ==> row.key.timeStep <= s.step + lead
  {
    if actions != [] {
      var n := |actions| - 1;
      var before, a := Run(lead, window, actions[..n]), actions[n];
      RunKeeps(lead, window, actions[..n], routes, f);
      ActionKeeps(lead, window, before, a, routes, f);
    }
  }

  lemma ActionKeeps(lead: nat, window: int, s: Table, a: Action, routes: set<Route>, f: nat)
    requires Unique(s.rows) && Bounded(s.rows, routes, f)
    requires forall row :: row in s.rows ==> row.key.timeStep <= s.step + lead
    requires a.Arrange? ==> a.call.route in routes && a.call.frequency <= f
    ensures var s' := Applied(lead, window, s, a);
      && Unique(s'.rows) && Bounded(s'.rows, routes, f)
      && forall row :: row in s'.rows ==> row.key.timeStep <= s'.step + lead
  {
    hide Scheduled, Unique, Bounded;
    match a
    case Arrange(call, routable, replies) =>
      ScheduledFills(s.rows, call, s.step + lead, replies, 0);
      assert Unique(Scheduled(s.rows, call, s.step + lead, replies, 0).table);
      AddedAtStep(s.rows, call, s.step + lead, replies);
      StaysBounded(s.rows, routes, f, call, s.step + lead, replies);
    case Arrive(matches) =>
      KeepRows(s.rows, matches);
      KeepBounded(s.rows, routes, f, matches);
    case CleanUp =>
      KeepRows(s.rows, TooOld(s.step, window));
      KeepBounded(s.rows, routes, f, TooOld(s.step, window));
    case Tick =>
  }

  lemma KeepBounded(table: seq<Row>, routes: set<Route>, f: nat, drop: Row -> bool)
    requires Bounded(table, routes, f)
    ensures Bounded(Keep(table, drop), routes, f)
  {
    KeepRows(table, drop);
  }

  lemma WindowSize(rows: seq<Row>, routes: set<Route>, step: nat, lead: nat, window: int, f: nat)
    requires Unique(rows) && Bounded(rows, routes, f)
    requires forall row :: row in rows ==> step - window < row.key.timeStep <= step + lead
    ensures |rows| <= |routes| * (Max(0, window + lead) * f)
  {
    hide Unique;
    var lo, hi := step - window, step + lead;
    if lo <= hi {
      SizeBound(rows, routes, lo, hi, f);
      assert hi - lo == Max(0, window + lead);
    } else {
      UniqueSize(rows);
      assert Keys(rows) == {};
      assert Max(0, window + lead) == 0;
    }
  }

  /** However long a run is, a table that was just cleaned up holds at most one row for each route, sequence number and
      step of the window. */
  lemma RefreshedSize(lead: nat, window: int, actions: seq<Action>, routes: set<Route>, f: nat)
    requires CallsWithin(actions, routes, f) && actions != [] && actions[|actions| - 1].CleanUp?
    ensures |Run(lead, window, actions).rows| <= |routes| * (Max(0, window + lead) * f)
  {
    hide Unique, Bounded, Keep, Scheduled, CallsWithin;
    RunKeeps(lead, window, actions, routes, f);
    var s, before := Run(lead, window, actions), Run(lead, window, actions[..|actions| - 1]);
    KeepRows(before.rows, TooOld(before.step, window));
    WindowSize(s.rows, routes, s.step, lead, window, f);
  }

  // ---------------------------------------------------------------- what is sent again

  /** The commands that the action with this number sends. */
  ghost function SentAt(lead: nat, window: int, actions: seq<Action>, k: nat): seq<Key>
    requires k < |actions|
  {
    var s := Run(lead, window, actions[..k]);
    match actions[k]
    case Arrange(call, routable, replies) =>
      if routable then Scheduled(s.rows, call, s.step + lead, replies, 0).commands else []
    case _ => []
  }

  /** The action with this number is the arrival of this message. */
  ghost predicate ArrivedAt(lead: nat, window: int, actions: seq<Action>, k: nat, key: Key)
    requires k < |actions|
  {
    && actions[k].Arrive?
    && exists row :: row in Run(lead, window, actions[..k]).rows && row.key == key && actions[k].matches(row)
  }

  lemma RunStep(lead: nat, window: int, actions: seq<Action>, k: nat)
    requires k < |actions|
    ensures Run(lead, window, actions[..k + 1]) == Applied(lead, window, Run(lead, window, actions[..k]), actions[k])
  {
    assert actions[..k + 1][..k] == actions[..k];
  }

  lemma HasRow(rows: seq<Row>, key: Key)
    ensures Has(rows, key) <==> exists row :: row in rows && row.key == key
  {
    if row :| row in rows && row.key == key {
      var i :| 0 <= i < |rows| && rows[i] == row;
      assert Has(rows, key);
    }
  }

  /** A row stays while its message does not arrive and the clock is short of its end. */
  lemma RowStays(lead: nat, window: int, actions: seq<Action>, k: nat, key: Key)
    requires k < |actions| && Has(Run(lead, window, actions[..k]).rows, key)
    requires !ArrivedAt(lead, window, actions, k, key)
    requires Run(lead, window, actions[..k]).step < key.timeStep + window
    ensures Has(Run(lead, window, actions[..k + 1]).rows, key)
  {
    var s := Run(lead, window, actions[..k]);
    RunStep(lead, window, actions, k);
    HasRow(s.rows, key);
    hide Has, Scheduled, Run, Keep;
    var row :| row in s.rows && row.key == key;
    match actions[k]
    case Arrange(call, routable, replies) => CommandsAreNew(s.rows, call, s.step + lead, replies, 0, key);
    case Arrive(matches) =>
      KeepRows(s.rows, matches);
      HasRow(Keep(s.rows, matches), key);
    case CleanUp =>
      KeepRows(s.rows, TooOld(s.step, window));
      HasRow(Keep(s.rows, TooOld(s.step, window)), key);
    case Tick =>
  }

  ghost function Ticks(actions: seq<Action>): set<nat> { set i | 0 <= i < |actions| && actions[i].Tick? }

  /** The clock counts the steps, and nothing else moves it. */
  lemma {:induction false} ClockCounts(lead: nat, window: int, actions: seq<Action>)
    ensures Run(lead, window, actions).step == |Ticks(actions)|
  {
    hide Scheduled, Keep;
    if actions == [] {
      assert Ticks(actions) == {};
    } else {
      var n := |actions| - 1;
      ClockCounts(lead, window, actions[..n]);
      assert Ticks(actions) == if actions[n].Tick? then Ticks(actions[..n]) + {n} else Ticks(actions[..n]);
    }
  }

  lemma {:induction false} ClockAdvances(lead: nat, window: int, actions: seq<Action>, k: nat, j: nat)
    requires k <= j <= |actions|
    ensures Run(lead, window, actions[..k]).step <= Run(lead, window, actions[..j]).step
    decreases j
  {
    if k < j {
      ClockAdvances(lead, window, actions, k, j - 1);
      RunStep(lead, window, actions, j - 1);
    }
  }

  lemma {:induction false} RowRemains(lead: nat, window: int, actions: seq<Action>, i: nat, j: nat, key: Key)
    requires i <= j <= |actions| && Has(Run(lead, window, actions[..i]).rows, key)
    requires forall k :: i <= k < j ==> !ArrivedAt(lead, window, actions, k, key)
    requires Run(lead, window, actions[..j]).step < key.timeStep + window
    ensures Has(Run(lead, window, actions[..j]).rows, key)
    decreases j
  {
    hide Has, Run, ArrivedAt;
    if i < j {
      ClockAdvances(lead, window, actions, j - 1, j);
      RowRemains(lead, window, actions, i, j - 1, key);
      RowStays(lead, window, actions, j - 1, key);
    }
  }

  lemma SentFacts(lead: nat, window: int, actions: seq<Action>, k: nat, key: Key)
    requires k < |actions| && key in SentAt(lead, window, actions, k)
    ensures !Has(Run(lead, window, actions[..k]).rows, key) && Has(Run(lead, window, actions[..k + 1]).rows, key)
    ensures key.timeStep == Run(lead, window, actions[..k]).step + lead
  {
    var s, a := Run(lead, window, actions[..k]), actions[k];
    RunStep(lead, window, actions, k);
    hide Has, Scheduled, Run;
    CommandsAreNew(s.rows, a.call, s.step + lead, a.replies, 0, key);
  }

  /** In every run a message is sent a second time only when it arrived in between or the window keeps no row of the
      step being scheduled; so one whose command was refused is lost while neither is the case. */
  lemma SentAgainOnly(lead: nat, window: int, actions: seq<Action>, i: nat, j: nat, key: Key)
    requires i < j < |actions| && key in SentAt(lead, window, actions, i) && key in SentAt(lead, window, actions, j)
    ensures window + lead <= 0 || exists k :: i < k < j && ArrivedAt(lead, window, actions, k, key)
  {
    SentFacts(lead, window, actions, i, key);
    SentFacts(lead, window, actions, j, key);
    hide Has, Run, ArrivedAt, SentAt;
    if window + lead > 0 && forall k :: i < k < j ==> !ArrivedAt(lead, window, actions, k, key) {
      RowRemains(lead, window, actions, i + 1, j, key);
    }
  }

  /** The first message of a call to a new table is refused, and the same call comes again in the same step: the
      message is sent again exactly when the row was dropped by what happened in between. */
  lemma SentAgainExactly(lead: nat, window: int, call: Call, replies: Replies, replies': Replies, between: Action)
    requires call.frequency > 0 && call.sends && !replies(0) && (between.CleanUp? || between.Arrive?)
    ensures var key := Key(call.route, lead, 0);
      var actions := [Arrange(call, true, replies), between, Arrange(call, true, replies')];
      && key in SentAt(lead, window, actions, 0)
      && (key in SentAt(lead, window, actions, 2) <==>
          if between.CleanUp? then window + lead <= 0 else between.matches(Row(key, call.appMessageId)))
  {
    hide Scheduled, Has, Keep, Run, Applied;
    var row := Row(Key(call.route, lead, 0), call.appMessageId);
    var actions := [Arrange(call, true, replies), between, Arrange(call, true, replies')];
    var drop := if between.CleanUp? then TooOld(0, window) else between.matches;
    FirstRefused(call, lead, replies);
    BetweenCalls(lead, window, call, replies, between, actions);
    OneKept(row, drop);
    FirstSent(call, lead, replies', Keep([row], drop));
  }

  lemma BetweenCalls(lead: nat, window: int, call: Call, replies: Replies, between: Action, actions: seq<Action>)
    requires call.frequency > 0 && call.sends && !replies(0) && (between.CleanUp? || between.Arrive?)
    requires |actions| >= 2 && actions[0] == Arrange(call, true, replies) && actions[1] == between
    ensures var row := Row(Key(call.route, lead, 0), call.appMessageId);
      && Run(lead, window, actions[..0]) == Table(0, [])
      && Run(lead, window, actions[..2]) ==
        Table(0, Keep([row], if between.CleanUp? then TooOld(0, window) else between.matches))
  {
    hide Scheduled, Keep;
    FirstRefused(call, lead, replies);
    RunStep(lead, window, actions, 0);
    RunStep(lead, window, actions, 1);
    assert actions[..0] == [];
  }

  lemma FirstRefused(call: Call, timeStep: nat, replies: Replies)
    requires call.frequency > 0 && call.sends && !replies(0)
    ensures var key := Key(call.route, timeStep, 0);
      Scheduled([], call, timeStep, replies, 0) == Outcome([Row(key, call.appMessageId)], [key], false)
  {
  }

  lemma OneKept(row: Row, drop: Row -> bool)
    ensures Keep([row], drop) == if drop(row) then [] else [row]
  {
    assert Keep([row][1..], drop) == [];
  }

  lemma FirstSent(call: Call, timeStep: nat, replies: Replies, rows: seq<Row>)
    requires call.frequency > 0 && call.sends
    requires rows == [] || rows == [Row(Key(call.route, timeStep, 0), call.appMessageId)]
    ensures Key(call.route, timeStep, 0) in Scheduled(rows, call, timeStep, replies, 0).commands <==> rows == []
  {
    var key := Key(call.route, timeStep, 0);
    CommandsAreNew(rows, call, timeStep, replies, 0, key);
    if rows != [] {
      assert rows[0].key == key;
    }
  }
}
