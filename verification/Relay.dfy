/**
 At-least-once relay of outbox rows, and the client's bounded set that drops the
 repeats. A row's number is taken when it is written, so rows can become visible
 out of order. The rows one client is sent come from few sources, and each
 source is written under a lock that its writer holds until it ends.
 */
module Relay {
  import opened Money

  const BATCH := 128
  const CAP := 2_000

  /**
   Where a row comes from. A market's own rows are written under its row lock,
   one per transaction; pauses under the configuration's generation lock, one
   per key and transaction. All other rows are of no concern to a market's clients.
   */
  datatype Source = Market(market: nat) | TradingPause | MarketPause(market: nat) | VotingPause(market: nat) | Unseen

  datatype RowState = Open | Committed | Published | RolledBack

  datatype Row = Row(source: Source, state: RowState)

  /** What the client dedupes on: a row's first or second frame, or a snapshot without a row. */
  datatype Key = Frame(row: nat, second: bool) | Snapshot

  /** What a connection subscribed to `market` is sent. */
  predicate Visible(market: nat, source: Source) { source in Sources(market) }

  function Sources(market: nat): set<Source> {
    {Market(market), TradingPause, MarketPause(market), VotingPause(market)}
  }

  // ---------------------------------------------------------------- the client's set

  predicate NoRepeats(s: seq<Key>) { forall i, j :: 0 <= i < j < |s| ==> s[i] != s[j] }

  /** Insertion-ordered; a new key evicts the oldest once the cap is passed. */
  function Record(seen: seq<Key>, key: Key): seq<Key> {
    var grown := seen + [key];
    if |grown| > CAP then grown[1..] else grown
  }

  /** A snapshot is always applied; its key is remembered without evicting. */
  function NoteSnapshot(seen: seq<Key>): seq<Key> {
    if Snapshot in seen then seen else seen + [Snapshot]
  }

  // ---------------------------------------------------------------- the outbox table

  /** The rows a claim can see, in order of their numbers. */
  function Waiting(rows: seq<Row>): seq<nat> {
    if rows == [] then []
    else
      var last := |rows| - 1;
      Waiting(rows[..last]) + (if rows[last].state.Committed? then [last] else [])
  }

  lemma {:induction false} WaitingIsVisible(rows: seq<Row>, k: nat)
    ensures k in Waiting(rows) <==> k < |rows| && rows[k].state.Committed?
  {
    if rows != [] {
      var last := |rows| - 1;
      WaitingIsVisible(rows[..last], k);
      assert k in Waiting(rows) <==> k in Waiting(rows[..last]) || (rows[last].state.Committed? && k == last);
    }
  }

  lemma {:induction false} WaitingAscends(rows: seq<Row>, i: nat, j: nat)
    requires i < j < |Waiting(rows)|
    ensures Waiting(rows)[i] < Waiting(rows)[j]
  {
    var init := rows[..|rows| - 1];
    if j < |Waiting(init)| {
      WaitingAscends(init, i, j);
    } else {
      WaitingIsVisible(init, Waiting(init)[i]);
    }
  }

  function Claimed(rows: seq<Row>): seq<nat> {
    var waiting := Waiting(rows);
    if |waiting| > BATCH then waiting[..BATCH] else waiting
  }

  /** A claim takes as many of the waiting rows as a batch holds; together with having no gaps, the first ones. */
  lemma ClaimIsFull(rows: seq<Row>, k: nat)
    requires k < |rows| && rows[k].state.Committed? && k !in Claimed(rows)
    ensures |Claimed(rows)| == 128
  {
    WaitingIsVisible(rows, k);
  }

  function Publish(rows: seq<Row>, ks: seq<nat>): (after: seq<Row>)
    ensures |after| == |rows|
    ensures forall k :: 0 <= k < |rows| ==> after[k] == if k in ks then rows[k].(state := Published) else rows[k]
  {
    seq(|rows|, k requires 0 <= k < |rows| => if k in ks then rows[k].(state := Published) else rows[k])
  }

  /** A transaction holds the source's lock and has written its row. */
  predicate Locked(rows: seq<Row>, source: Source) {
    exists k :: 0 <= k < |rows| && rows[k] == Row(source, Open)
  }

  /** A row is written once its source's lock is free; its writer holds the lock until the row is settled. */
  function Write(rows: seq<Row>, source: Source): seq<Row> {
    if !source.Unseen? && Locked(rows, source) then rows else rows + [Row(source, Open)]
  }

  function Settle(rows: seq<Row>, k: nat, state: RowState): seq<Row> {
    if k < |rows| && rows[k].state.Open? then rows[k := rows[k].(state := state)] else rows
  }

  // ---------------------------------------------------------------- relay and client together

  /** An open batch: the first `sent` of its rows have been broadcast. */
  datatype Batch = Batch(rows: seq<nat>, sent: nat)

  /** `bus` is every row ever broadcast; `applied` every frame the client has acted on since it connected. */
  datatype System =
    System(rows: seq<Row>, batch: Option<Batch>, bus: seq<nat>, market: nat, seen: seq<Key>, applied: seq<Key>)

  datatype Step =
    | WriteRow(source: Source)
    | CommitRow(row: nat)
    | RollBackRow(row: nat)
    | OpenBatch
    | SendRow(first: bool, second: bool)
    | LoseBatch
    | CommitBatch
    | SnapshotArrives
    | Connect(market: nat)

  function Receive(sys: System, key: Key, delivered: bool): System {
    if !delivered || key in sys.seen then sys
    else sys.(seen := Record(sys.seen, key), applied := sys.applied + [key])
  }

  /** The client's connection passes on the frames of its own rows; any of them may be dropped on the way. */
  function Deliver(sys: System, row: nat, first: bool, second: bool): System {
    var mine := row < |sys.rows| && Visible(sys.market, sys.rows[row].source);
    Receive(Receive(sys, Frame(row, false), mine && first), Frame(row, true), mine && second)
  }

  /** A lost batch is a crash or a failed mark, at any point. */
  function Perform(sys: System, step: Step): System {
    match step
    case WriteRow(source) => sys.(rows := Write(sys.rows, source))
    case CommitRow(k) => sys.(rows := Settle(sys.rows, k, Committed))
    case RollBackRow(k) => sys.(rows := Settle(sys.rows, k, RolledBack))
    case OpenBatch => if sys.batch.Some? then sys else sys.(batch := Some(Batch(Claimed(sys.rows), 0)))
    case SendRow(first, second) =>
      if sys.batch.None? || sys.batch.value.sent >= |sys.batch.value.rows| then sys
      else
        var batch := sys.batch.value;
        var row := batch.rows[batch.sent];
        Deliver(sys, row, first, second)
        .(batch := Some(batch.(sent := batch.sent + 1)), bus := sys.bus + [row])
    case LoseBatch => sys.(batch := None)
    case CommitBatch =>
      if sys.batch.None? || sys.batch.value.sent != |sys.batch.value.rows| then sys
      else sys.(rows := Publish(sys.rows, sys.batch.value.rows), batch := None)
    case SnapshotArrives => sys.(seen := NoteSnapshot(sys.seen))
    case Connect(market) => sys.(market := market, seen := [], applied := [])
  }

  function Run(sys: System, steps: seq<Step>): System {
    if steps == [] then sys else Perform(Run(sys, steps[..|steps| - 1]), steps[|steps| - 1])
  }

  lemma RunThen(sys: System, steps: seq<Step>, step: Step)
    ensures Run(sys, steps + [step]) == Perform(Run(sys, steps), step)
  {
    assert (steps + [step])[..|steps|] == steps;
  }

  function Start(market: nat): System { System([], None, [], market, [], []) }

  // ---------------------------------------------------------------- at least once

  /** A broadcast row is committed; a published one, and the sent part of a batch, has been broadcast. */
  ghost predicate Broadcasts(sys: System) {
    && (forall k :: 0 <= k < |sys.rows| && sys.rows[k].state.Published? ==> k in sys.bus)
    && (forall i :: 0 <= i < |sys.bus| ==> OutOfHand(sys.rows, sys.bus[i]))
    && (sys.batch.Some? ==>
          && sys.batch.value.sent <= |sys.batch.value.rows|
          && (forall i :: 0 <= i < |sys.batch.value.rows| ==> OutOfHand(sys.rows, sys.batch.value.rows[i]))
          && (forall i :: 0 <= i < sys.batch.value.sent ==> sys.batch.value.rows[i] in sys.bus))
  }

  /** The row's transaction has committed. */
  predicate OutOfHand(rows: seq<Row>, k: nat) {
    k < |rows| && (rows[k].state.Committed? || rows[k].state.Published?)
  }

  lemma StepBroadcasts(sys: System, step: Step)
    requires Broadcasts(sys)
    ensures Broadcasts(Perform(sys, step))
    ensures sys.bus <= Perform(sys, step).bus
  {
    var after := Perform(sys, step);
    forall k: nat | OutOfHand(sys.rows, k) ensures OutOfHand(after.rows, k) {}
    match step
    case OpenBatch =>
      forall i | 0 <= i < |Claimed(sys.rows)| ensures OutOfHand(sys.rows, Claimed(sys.rows)[i]) {
        ClaimedIsVisible(sys.rows, Claimed(sys.rows)[i]);
      }
    case _ =>
  }

  /** Only committed rows are ever broadcast, and none is marked published before it has been. */
  lemma {:induction false} PublishedWasBroadcast(market: nat, steps: seq<Step>)
    ensures Broadcasts(Run(Start(market), steps))
  {
    if steps != [] {
      PublishedWasBroadcast(market, steps[..|steps| - 1]);
      StepBroadcasts(Run(Start(market), steps[..|steps| - 1]), steps[|steps| - 1]);
    }
  }

  // ---------------------------------------------------------------- the invariant

  /** At most one row of a source is open: its writer holds the lock. */
  ghost predicate LocksKept(rows: seq<Row>) {
    forall i, j :: 0 <= i < j < |rows| && rows[i].state.Open? && rows[j].state.Open? && !rows[i].source.Unseen? ==>
      rows[i].source != rows[j].source
  }

  predicate Mine(rows: seq<Row>, market: nat, k: nat) { k < |rows| && Visible(market, rows[k].source) }

  /** Rows of the client's that may still be sent. */
  predicate Unsettled(rows: seq<Row>, market: nat, k: nat) {
    Mine(rows, market, k) && (rows[k].state.Open? || rows[k].state.Committed?)
  }

  ghost function Between(rows: seq<Row>, market: nat, low: nat, top: nat): set<nat> {
    set k: nat | low < k <= top && Unsettled(rows, market, k)
  }

  /**
   Kept for every claimed row of the client's until it is published. `low` holds
   the rows below it that were unsettled at its first claim; `top` is the highest
   row claimed together with it.
   */
  datatype Mark = Mark(low: set<nat>, top: nat)

  /** The rest of a batch, and one open row for each of the client's sources. */
  const ROOM := BATCH - 1 + 4

  ghost predicate MarkKept(rows: seq<Row>, market: nat, r: nat, mark: Mark) {
    && r <= mark.top < |rows|
    && |mark.low| <= ROOM && |Between(rows, market, r, mark.top)| <= ROOM
    && forall k: nat :: k < r && Unsettled(rows, market, k) ==> k in mark.low
  }

  /** What can have been sent to the client after row `r`, as long as `r` is not published. */
  predicate Follows(rows: seq<Row>, market: nat, r: nat, mark: Mark, key: Key) {
    || key.Snapshot? || key.row == r || key.row in mark.low
    || (r < key.row <= mark.top && Mine(rows, market, key.row) && rows[key.row].state.Committed?)
  }

  ghost predicate FollowersKept(sys: System, market: nat, r: nat, mark: Mark) {
    forall i, j :: 0 <= i < j < |sys.seen| && sys.seen[i].Frame? && sys.seen[i].row == r ==>
      Follows(sys.rows, market, r, mark, sys.seen[j])
  }

  predicate AtRisk(rows: seq<Row>, marks: map<nat, Mark>, r: nat) {
    r in marks && r < |rows| && rows[r].state.Committed?
  }

  /** The table, as it looks to the clients of a market, whoever is connected. */
  ghost predicate MarksKept(rows: seq<Row>, market: nat, marks: map<nat, Mark>) {
    && (forall r :: r in marks ==> OutOfHand(rows, r))
    && (forall r :: AtRisk(rows, marks, r) ==> MarkKept(rows, market, r, marks[r]))
  }

  /** The market's rows in an open batch are visible and marked, with all such rows below them. */
  ghost predicate BatchKept(sys: System, market: nat, marks: map<nat, Mark>) {
    sys.batch.Some? ==>
      && (forall v: nat :: v in sys.batch.value.rows && Mine(sys.rows, market, v) ==> AtRisk(sys.rows, marks, v))
      && (forall r: nat, v: nat ::
            AtRisk(sys.rows, marks, r) && v in sys.batch.value.rows && Mine(sys.rows, market, v) ==>
              v <= marks[r].top && (r < v ==> r in sys.batch.value.rows))
  }

  /** The set agrees with everything applied, for every row that may be sent again. */
  ghost predicate SeenKept(sys: System, marks: map<nat, Mark>) {
    && NoRepeats(sys.seen) && NoRepeats(sys.applied)
    && (forall i :: 0 <= i < |sys.seen| && sys.seen[i].Frame? ==> sys.seen[i] in sys.applied)
    && (forall i :: 0 <= i < |sys.applied| ==> sys.applied[i].Frame? && sys.applied[i].row in marks)
    && (forall i :: 0 <= i < |sys.applied| && AtRisk(sys.rows, marks, sys.applied[i].row) ==>
          sys.applied[i] in sys.seen)
  }

  ghost predicate ClientKept(sys: System, marks: map<nat, Mark>) {
    && SeenKept(sys, marks)
    && forall r :: AtRisk(sys.rows, marks, r) ==> FollowersKept(sys, sys.market, r, marks[r])
  }

  /** For the clients of `market`: the table always, the connected client if it is one of them. */
  ghost predicate Good(sys: System, market: nat, marks: map<nat, Mark>) {
    && LocksKept(sys.rows) && MarksKept(sys.rows, market, marks) && BatchKept(sys, market, marks)
    && (sys.market == market ==> ClientKept(sys, marks))
  }

  // ---------------------------------------------------------------- counting

  lemma {:induction false} NoLarger(a: set<nat>, b: set<nat>)
    requires a <= b
    ensures |a| <= |b|
    decreases a
  {
    if a != {} {
      var x :| x in a;
      NoLarger(a - {x}, b - {x});
    }
  }

  function RowsOf(ks: seq<nat>): set<nat> { set k | k in ks }

  lemma {:induction false} FewRows(ks: seq<nat>)
    ensures |RowsOf(ks)| <= |ks|
  {
    if ks != [] {
      FewRows(ks[..|ks| - 1]);
      assert RowsOf(ks) == RowsOf(ks[..|ks| - 1]) + {ks[|ks| - 1]};
    } else {
      assert RowsOf(ks) == {};
    }
  }

  lemma {:induction false} FewDistinct(keys: seq<Key>, within: set<Key>)
    requires NoRepeats(keys) && forall i :: 0 <= i < |keys| ==> keys[i] in within
    ensures |keys| <= |within|
  {
    if keys != [] {
      var init, last := keys[..|keys| - 1], keys[|keys| - 1];
      assert last in within;
      FewDistinct(init, within - {last});
    }
  }

  /** Two frames a row, and one snapshot. */
  ghost function KeysOf(rows: set<nat>): (keys: set<Key>)
    ensures Snapshot in keys && forall key :: key in keys <==> key.Snapshot? || key.row in rows
    ensures |keys| <= 2 * |rows| + 1
  {
    if rows == {} then {Snapshot}
    else
      var r :| r in rows;
      KeysOf(rows - {r}) + {Frame(r, false), Frame(r, true)}
  }

  lemma FewKeys(keys: seq<Key>, rows: set<nat>)
    requires NoRepeats(keys) && forall i :: 0 <= i < |keys| ==> keys[i].Snapshot? || keys[i].row in rows
    ensures |keys| <= 2 * |rows| + 1
  {
    FewDistinct(keys, KeysOf(rows));
  }

  ghost function OpenOf(rows: seq<Row>, sources: set<Source>): set<nat> {
    set k | 0 <= k < |rows| && rows[k].state.Open? && rows[k].source in sources
  }

  /** Open rows of locked sources: at most one for each. */
  lemma {:induction false} FewOpen(rows: seq<Row>, sources: set<Source>)
    requires LocksKept(rows) && Unseen !in sources
    ensures |OpenOf(rows, sources)| <= |sources|
    decreases |sources|
  {
    if sources == {} {
      assert OpenOf(rows, sources) == {};
    } else {
      var source :| source in sources;
      FewOpen(rows, sources - {source});
      OneOpen(rows, source);
      assert OpenOf(rows, sources) == OpenOf(rows, sources - {source}) + OpenOf(rows, {source});
    }
  }

  lemma OneOpen(rows: seq<Row>, source: Source)
    requires LocksKept(rows) && !source.Unseen?
    ensures |OpenOf(rows, {source})| <= 1
  {
    if OpenOf(rows, {source}) != {} {
      var k :| k in OpenOf(rows, {source});
      assert OpenOf(rows, {source}) == {k};
    }
  }

  /** While a row is unpublished, at most 527 keys stand in the set from its frame on: far below the cap. */
  lemma OldestIsSafe(sys: System, r: nat, mark: Mark)
    requires NoRepeats(sys.seen) && sys.seen != [] && sys.seen[0].Frame? && sys.seen[0].row == r
    requires MarkKept(sys.rows, sys.market, r, mark) && FollowersKept(sys, sys.market, r, mark)
    ensures |sys.seen| <= 4 * ROOM + 3 < CAP
  {
    var rows := mark.low + {r} + Between(sys.rows, sys.market, r, mark.top);
    forall j | 0 <= j < |sys.seen| ensures sys.seen[j].Snapshot? || sys.seen[j].row in rows {
      if j > 0 { assert Follows(sys.rows, sys.market, r, mark, sys.seen[j]); }
    }
    FewKeys(sys.seen, rows);
  }

  // ---------------------------------------------------------------- a frame arrives

  /** A frame the connected client may be sent now. */
  ghost predicate Sendable(sys: System, key: Key) {
    key.Frame? && sys.batch.Some? && key.row in sys.batch.value.rows && Mine(sys.rows, sys.market, key.row)
  }

  lemma BatchFollows(sys: System, marks: map<nat, Mark>, r: nat, key: Key)
    requires MarksKept(sys.rows, sys.market, marks) && BatchKept(sys, sys.market, marks)
    requires AtRisk(sys.rows, marks, r) && Sendable(sys, key)
    ensures Follows(sys.rows, sys.market, r, marks[r], key)
  {
    assert AtRisk(sys.rows, marks, key.row);
    assert MarkKept(sys.rows, sys.market, r, marks[r]);
  }

  function Grown(sys: System, key: Key): System {
    sys.(seen := sys.seen + [key], applied := sys.applied + [key])
  }

  lemma GrownKeepsFollowers(sys: System, marks: map<nat, Mark>, key: Key, r: nat)
    requires MarksKept(sys.rows, sys.market, marks) && BatchKept(sys, sys.market, marks)
    requires AtRisk(sys.rows, marks, r) && FollowersKept(sys, sys.market, r, marks[r]) && Sendable(sys, key)
    ensures FollowersKept(Grown(sys, key), sys.market, r, marks[r])
  {
    BatchFollows(sys, marks, r, key);
  }

  lemma GrownKeepsClient(sys: System, marks: map<nat, Mark>, key: Key)
    requires MarksKept(sys.rows, sys.market, marks) && BatchKept(sys, sys.market, marks) && ClientKept(sys, marks)
    requires Sendable(sys, key) && key !in sys.seen
    ensures ClientKept(Grown(sys, key), marks)
  {
    assert AtRisk(sys.rows, marks, key.row);
    forall r | AtRisk(sys.rows, marks, r) ensures FollowersKept(Grown(sys, key), sys.market, r, marks[r]) {
      GrownKeepsFollowers(sys, marks, key, r);
    }
    GrownKeepsSeen(sys, marks, key);
  }

  lemma GrownKeepsSeen(sys: System, marks: map<nat, Mark>, key: Key)
    requires SeenKept(sys, marks) && key.Frame? && AtRisk(sys.rows, marks, key.row) && key !in sys.seen
    ensures SeenKept(Grown(sys, key), marks)
  {
  }

  function Evicted(sys: System): System
    requires sys.seen != []
  {
    sys.(seen := sys.seen[1..])
  }

  lemma EvictedKeepsClient(sys: System, marks: map<nat, Mark>)
    requires MarksKept(sys.rows, sys.market, marks) && ClientKept(sys, marks) && |sys.seen| > CAP
    ensures ClientKept(Evicted(sys), marks)
  {
    var oldest := sys.seen[0];
    if oldest.Frame? && AtRisk(sys.rows, marks, oldest.row) {
      OldestIsSafe(sys, oldest.row, marks[oldest.row]);
    }
    forall r | AtRisk(sys.rows, marks, r) ensures FollowersKept(Evicted(sys), sys.market, r, marks[r]) {
      assert FollowersKept(sys, sys.market, r, marks[r]);
    }
    forall i | 0 <= i < |sys.applied| && AtRisk(sys.rows, marks, sys.applied[i].row)
      ensures sys.applied[i] in sys.seen[1..]
    {
      assert sys.applied[i] in sys.seen && sys.seen == [oldest] + sys.seen[1..];
    }
  }

  /** What an unlimited set would let through. */
  function Applied(applied: seq<Key>, key: Key, delivered: bool): (after: seq<Key>)
    ensures forall k :: k in after <==> k in applied || (delivered && k == key)
  {
    if delivered && key !in applied then applied + [key] else applied
  }

  lemma ReceiveKeeps(sys: System, marks: map<nat, Mark>, key: Key, delivered: bool)
    requires MarksKept(sys.rows, sys.market, marks) && BatchKept(sys, sys.market, marks) && ClientKept(sys, marks)
    requires key.Frame? && (delivered ==> Sendable(sys, key))
    ensures var after := Receive(sys, key, delivered);
            && ClientKept(after, marks) && after == sys.(seen := after.seen, applied := after.applied)
            && after.applied == Applied(sys.applied, key, delivered)
  {
    if delivered {
      assert AtRisk(sys.rows, marks, key.row);
      if key !in sys.seen {
        GrownKeepsClient(sys, marks, key);
        if |sys.seen| + 1 > CAP { EvictedKeepsClient(Grown(sys, key), marks); }
      }
    }
  }

  lemma DeliverKeeps(sys: System, marks: map<nat, Mark>, row: nat, first: bool, second: bool)
    requires MarksKept(sys.rows, sys.market, marks) && BatchKept(sys, sys.market, marks) && ClientKept(sys, marks)
    requires sys.batch.Some? && row in sys.batch.value.rows
    ensures var after := Deliver(sys, row, first, second);
            var mine := Mine(sys.rows, sys.market, row);
            && ClientKept(after, marks) && after == sys.(seen := after.seen, applied := after.applied)
            && after.applied
               == Applied(Applied(sys.applied, Frame(row, false), mine && first), Frame(row, true), mine && second)
  {
    var mine := Mine(sys.rows, sys.market, row);
    ReceiveKeeps(sys, marks, Frame(row, false), mine && first);
    ReceiveKeeps(Receive(sys, Frame(row, false), mine && first), marks, Frame(row, true), mine && second);
  }

  /** Frames for a client of some other market. */
  lemma DeliverElsewhere(sys: System, row: nat, first: bool, second: bool)
    ensures var after := Deliver(sys, row, first, second); after == sys.(seen := after.seen, applied := after.applied)
  {
  }

  lemma SendKeeps(sys: System, market: nat, marks: map<nat, Mark>, first: bool, second: bool)
    requires Good(sys, market, marks)
    ensures Good(Perform(sys, SendRow(first, second)), market, marks)
  {
    if sys.batch.Some? && sys.batch.value.sent < |sys.batch.value.rows| {
      var row := sys.batch.value.rows[sys.batch.value.sent];
      DeliverElsewhere(sys, row, first, second);
      if sys.market == market {
        DeliverKeeps(sys, marks, row, first, second);
        SameClient(Deliver(sys, row, first, second), Perform(sys, SendRow(first, second)), marks);
      }
    }
  }

  lemma SameClient(sys: System, after: System, marks: map<nat, Mark>)
    requires ClientKept(sys, marks) && after.rows == sys.rows && after.market == sys.market
    requires after.seen == sys.seen && after.applied == sys.applied
    ensures ClientKept(after, marks)
  {
    forall r: nat | AtRisk(sys.rows, marks, r) ensures FollowersKept(after, sys.market, r, marks[r]) {
      assert FollowersKept(sys, sys.market, r, marks[r]);
    }
  }

  // ---------------------------------------------------------------- rows move

  /** Rows are added, settled or published, and none of the client's is published ahead of a marked one below it. */
  ghost predicate RowsMove(before: seq<Row>, after: seq<Row>, market: nat, marks: map<nat, Mark>) {
    && |before| <= |after|
    && (forall k :: 0 <= k < |before| ==>
          after[k].source == before[k].source && StateMoves(before[k].state, after[k].state))
    && (forall r: nat, v: nat ::
          AtRisk(after, marks, r) && r < v && Mine(before, market, v) && before[v].state.Committed? ==>
            after[v].state.Committed?)
  }

  predicate StateMoves(before: RowState, after: RowState) {
    after == before || (before.Open? && !after.Published?) || (before.Committed? && after.Published?)
  }

  lemma MarkStaysKept(before: seq<Row>, after: seq<Row>, market: nat, marks: map<nat, Mark>, r: nat)
    requires RowsMove(before, after, market, marks) && r in marks && MarkKept(before, market, r, marks[r])
    ensures MarkKept(after, market, r, marks[r])
  {
    var mark := marks[r];
    forall k: nat | k <= mark.top && Unsettled(after, market, k) ensures Unsettled(before, market, k) {}
    NoLarger(Between(after, market, r, mark.top), Between(before, market, r, mark.top));
  }

  lemma FollowersStayKept(sys: System, after: System, marks: map<nat, Mark>, r: nat)
    requires RowsMove(sys.rows, after.rows, sys.market, marks) && AtRisk(after.rows, marks, r)
    requires after.seen == sys.seen && FollowersKept(sys, sys.market, r, marks[r])
    ensures FollowersKept(after, sys.market, r, marks[r])
  {
    forall i, j | 0 <= i < j < |sys.seen| && sys.seen[i].Frame? && sys.seen[i].row == r
      ensures Follows(after.rows, sys.market, r, marks[r], sys.seen[j])
    {
      assert Follows(sys.rows, sys.market, r, marks[r], sys.seen[j]);
    }
  }

  lemma MovingKeepsMarks(before: seq<Row>, after: seq<Row>, market: nat, marks: map<nat, Mark>)
    requires MarksKept(before, market, marks) && RowsMove(before, after, market, marks)
    ensures MarksKept(after, market, marks)
    ensures forall r :: AtRisk(after, marks, r) ==> AtRisk(before, marks, r)
  {
    forall r | AtRisk(after, marks, r) ensures AtRisk(before, marks, r) && MarkKept(after, market, r, marks[r]) {
      assert OutOfHand(before, r);
      assert AtRisk(before, marks, r) && MarkKept(before, market, r, marks[r]);
      MarkStaysKept(before, after, market, marks, r);
    }
  }

  lemma MovingKeepsClient(sys: System, after: System, marks: map<nat, Mark>)
    requires ClientKept(sys, marks) && after == sys.(rows := after.rows, batch := after.batch)
    requires RowsMove(sys.rows, after.rows, sys.market, marks)
    requires forall r :: AtRisk(after.rows, marks, r) ==> AtRisk(sys.rows, marks, r)
    ensures ClientKept(after, marks)
  {
    forall r | AtRisk(after.rows, marks, r) ensures FollowersKept(after, sys.market, r, marks[r]) {
      assert AtRisk(sys.rows, marks, r) && FollowersKept(sys, sys.market, r, marks[r]);
      FollowersStayKept(sys, after, marks, r);
    }
  }

  lemma CommitBatchKeeps(sys: System, market: nat, marks: map<nat, Mark>)
    requires Good(sys, market, marks) && Broadcasts(sys)
    ensures Good(Perform(sys, CommitBatch), market, marks)
  {
    if sys.batch.Some? && sys.batch.value.sent == |sys.batch.value.rows| {
      var after := Perform(sys, CommitBatch);
      PublishingMoves(sys, market, marks);
      MovingKeepsMarks(sys.rows, after.rows, market, marks);
      if sys.market == market { MovingKeepsClient(sys, after, marks); }
    }
  }

  lemma PublishingMoves(sys: System, market: nat, marks: map<nat, Mark>)
    requires BatchKept(sys, market, marks) && Broadcasts(sys) && sys.batch.Some?
    ensures RowsMove(sys.rows, Publish(sys.rows, sys.batch.value.rows), market, marks)
  {
    var ks, after := sys.batch.value.rows, Publish(sys.rows, sys.batch.value.rows);
    forall k: nat | k in ks ensures OutOfHand(sys.rows, k) {}
    forall r: nat, v: nat |
      AtRisk(after, marks, r) && r < v && Mine(sys.rows, market, v) && sys.rows[v].state.Committed?
      ensures after[v].state.Committed?
    {
      if v in ks { assert AtRisk(sys.rows, marks, r); }
    }
  }

  lemma WritingKeepsLocks(rows: seq<Row>, source: Source)
    requires LocksKept(rows)
    ensures LocksKept(Write(rows, source))
  {
  }

  /** A row being written, committed or rolled back is no row that was ever claimed. */
  lemma WritersKeep(sys: System, market: nat, marks: map<nat, Mark>, step: Step)
    requires Good(sys, market, marks) && Broadcasts(sys) && (step.WriteRow? || step.CommitRow? || step.RollBackRow?)
    ensures Good(Perform(sys, step), market, marks)
  {
    var after := Perform(sys, step);
    if step.WriteRow? { WritingKeepsLocks(sys.rows, step.source); }
    assert RowsMove(sys.rows, after.rows, market, marks);
    MovingKeepsMarks(sys.rows, after.rows, market, marks);
    WritersKeepBatch(sys, after, market, marks);
    if sys.market == market { MovingKeepsClient(sys, after, marks); }
  }

  lemma WritersKeepBatch(sys: System, after: System, market: nat, marks: map<nat, Mark>)
    requires BatchKept(sys, market, marks) && after == sys.(rows := after.rows) && |sys.rows| <= |after.rows|
    requires forall k :: 0 <= k < |sys.rows| ==>
      after.rows[k] == sys.rows[k] || (sys.rows[k].state.Open? && after.rows[k].source == sys.rows[k].source)
    requires forall r :: AtRisk(after.rows, marks, r) ==> AtRisk(sys.rows, marks, r)
    requires sys.batch.Some? ==> forall i :: 0 <= i < |sys.batch.value.rows| ==> sys.batch.value.rows[i] < |sys.rows|
    ensures BatchKept(after, market, marks)
  {
  }

  // ---------------------------------------------------------------- a batch is opened

  /** A claim takes visible rows without gaps. */
  lemma ClaimHasNoGaps(rows: seq<Row>, k: nat, v: nat)
    requires k < |rows| && rows[k].state.Committed? && k < v && v in Claimed(rows)
    ensures k in Claimed(rows)
  {
    WaitingIsVisible(rows, k);
    var i :| 0 <= i < |Waiting(rows)| && Waiting(rows)[i] == k;
    var j :| 0 <= j < |Claimed(rows)| && Claimed(rows)[j] == v;
    assert Waiting(rows)[j] == v;
    if j < i { WaitingAscends(rows, j, i); }
    assert Claimed(rows)[i] == k;
  }

  ghost function Below(rows: seq<Row>, market: nat, r: nat): set<nat> {
    set k: nat | k < r && Unsettled(rows, market, k)
  }

  function Top(rows: seq<Row>): nat
    requires Claimed(rows) != []
  {
    Claimed(rows)[|Claimed(rows)| - 1]
  }

  lemma TopIsHighest(rows: seq<Row>, v: nat)
    requires v in Claimed(rows)
    ensures v <= Top(rows) && Top(rows) in Claimed(rows)
  {
    var i :| 0 <= i < |Claimed(rows)| && Claimed(rows)[i] == v;
    if i < |Claimed(rows)| - 1 { WaitingAscends(rows, i, |Claimed(rows)| - 1); }
  }

  lemma ClaimedIsVisible(rows: seq<Row>, v: nat)
    requires v in Claimed(rows)
    ensures v < |rows| && rows[v].state.Committed?
  {
    WaitingIsVisible(rows, v);
    assert v in Waiting(rows);
  }

  /** Around a claimed row, up to the top of the claim, only claimed rows and the few open ones can still be sent. */
  lemma FewAround(rows: seq<Row>, market: nat, r: nat)
    requires r in Claimed(rows) && LocksKept(rows)
    ensures |Below(rows, market, r)| <= ROOM && |Between(rows, market, r, Top(rows))| <= ROOM
  {
    var around := (RowsOf(Claimed(rows)) - {r}) + OpenOf(rows, Sources(market));
    TopIsHighest(rows, r);
    ClaimedIsVisible(rows, Top(rows));
    forall k: nat | k != r && k <= Top(rows) && Unsettled(rows, market, k) ensures k in around {
      if rows[k].state.Committed? && k < Top(rows) { ClaimHasNoGaps(rows, k, Top(rows)); }
    }
    FewRows(Claimed(rows));
    FewOpen(rows, Sources(market));
    NoLarger(Below(rows, market, r), around);
    NoLarger(Between(rows, market, r, Top(rows)), around);
  }

  ghost function MyClaim(rows: seq<Row>, market: nat): set<nat> {
    set k | k in Claimed(rows) && Mine(rows, market, k)
  }

  ghost function MarkFor(rows: seq<Row>, market: nat, marks: map<nat, Mark>, r: nat): Mark
    requires r in marks || r in Claimed(rows)
  {
    if r !in marks then Mark(Below(rows, market, r), Top(rows))
    else if r in Claimed(rows) && Top(rows) > marks[r].top then marks[r].(top := Top(rows))
    else marks[r]
  }

  ghost function NewMarks(rows: seq<Row>, market: nat, marks: map<nat, Mark>): map<nat, Mark> {
    map r | r in marks.Keys + MyClaim(rows, market) :: MarkFor(rows, market, marks, r)
  }

  lemma NewMarkKept(rows: seq<Row>, market: nat, marks: map<nat, Mark>, r: nat)
    requires MarksKept(rows, market, marks) && LocksKept(rows) && AtRisk(rows, NewMarks(rows, market, marks), r)
    ensures MarkKept(rows, market, r, NewMarks(rows, market, marks)[r])
  {
    if r in Claimed(rows) {
      FewAround(rows, market, r);
      TopIsHighest(rows, r);
      ClaimedIsVisible(rows, Top(rows));
    }
    if r in marks { assert AtRisk(rows, marks, r) && MarkKept(rows, market, r, marks[r]); }
  }

  lemma OpenKeepsMarks(rows: seq<Row>, market: nat, marks: map<nat, Mark>)
    requires MarksKept(rows, market, marks) && LocksKept(rows)
    ensures MarksKept(rows, market, NewMarks(rows, market, marks))
  {
    var marks' := NewMarks(rows, market, marks);
    forall r: nat | r in marks' ensures OutOfHand(rows, r) {
      if r !in marks { ClaimedIsVisible(rows, r); }
    }
    forall r: nat | AtRisk(rows, marks', r) ensures MarkKept(rows, market, r, marks'[r]) {
      NewMarkKept(rows, market, marks, r);
    }
  }

  lemma NewBatchKept(rows: seq<Row>, market: nat, marks: map<nat, Mark>, r: nat, v: nat)
    requires MarksKept(rows, market, marks) && AtRisk(rows, NewMarks(rows, market, marks), r) && v in Claimed(rows)
    ensures v <= NewMarks(rows, market, marks)[r].top && (r < v ==> r in Claimed(rows))
  {
    TopIsHighest(rows, v);
    if r < v { ClaimHasNoGaps(rows, r, v); }
    if r in marks { assert AtRisk(rows, marks, r) && MarkKept(rows, market, r, marks[r]); }
  }

  lemma OpenKeepsBatch(sys: System, market: nat, marks: map<nat, Mark>)
    requires MarksKept(sys.rows, market, marks) && sys.batch.None?
    ensures BatchKept(Perform(sys, OpenBatch), market, NewMarks(sys.rows, market, marks))
  {
    var marks' := NewMarks(sys.rows, market, marks);
    forall v: nat | v in Claimed(sys.rows) && Mine(sys.rows, market, v) ensures AtRisk(sys.rows, marks', v) {
      ClaimedIsVisible(sys.rows, v);
    }
    forall r: nat, v: nat | AtRisk(sys.rows, marks', r) && v in Claimed(sys.rows)
      ensures v <= marks'[r].top && (r < v ==> r in Claimed(sys.rows))
    {
      NewBatchKept(sys.rows, market, marks, r, v);
    }
  }

  lemma NewFollowersKept(sys: System, marks: map<nat, Mark>, r: nat)
    requires ClientKept(sys, marks) && AtRisk(sys.rows, NewMarks(sys.rows, sys.market, marks), r)
    ensures FollowersKept(sys, sys.market, r, NewMarks(sys.rows, sys.market, marks)[r])
  {
    if r in marks {
      assert AtRisk(sys.rows, marks, r) && FollowersKept(sys, sys.market, r, marks[r]);
    } else {
      forall i | 0 <= i < |sys.seen| && sys.seen[i].Frame? ensures sys.seen[i].row != r {
        assert sys.seen[i] in sys.applied;
      }
    }
  }

  lemma OpenKeepsClient(sys: System, marks: map<nat, Mark>)
    requires ClientKept(sys, marks)
    ensures ClientKept(sys, NewMarks(sys.rows, sys.market, marks))
  {
    var marks' := NewMarks(sys.rows, sys.market, marks);
    forall i | 0 <= i < |sys.applied| && AtRisk(sys.rows, marks', sys.applied[i].row)
      ensures sys.applied[i] in sys.seen
    {
      assert AtRisk(sys.rows, marks, sys.applied[i].row);
    }
    forall r: nat | AtRisk(sys.rows, marks', r) ensures FollowersKept(sys, sys.market, r, marks'[r]) {
      NewFollowersKept(sys, marks, r);
    }
  }

  lemma OpenKeeps(sys: System, market: nat, marks: map<nat, Mark>)
    requires Good(sys, market, marks) && sys.batch.None?
    ensures Good(Perform(sys, OpenBatch), market, NewMarks(sys.rows, market, marks))
  {
    OpenKeepsMarks(sys.rows, market, marks);
    OpenKeepsBatch(sys, market, marks);
    if sys.market == market {
      OpenKeepsClient(sys, marks);
      SameClient(sys, Perform(sys, OpenBatch), NewMarks(sys.rows, market, marks));
    }
  }

  lemma SnapshotKeeps(sys: System, marks: map<nat, Mark>)
    requires ClientKept(sys, marks)
    ensures ClientKept(Perform(sys, SnapshotArrives), marks)
  {
    var after := Perform(sys, SnapshotArrives);
    forall r | AtRisk(sys.rows, marks, r) ensures FollowersKept(after, sys.market, r, marks[r]) {
      assert FollowersKept(sys, sys.market, r, marks[r]);
    }
  }

  lemma StepKeeps(sys: System, market: nat, marks: map<nat, Mark>, step: Step) returns (marks': map<nat, Mark>)
    requires Good(sys, market, marks) && Broadcasts(sys)
    ensures Good(Perform(sys, step), market, marks')
  {
    marks' := marks;
    match step
    case WriteRow(_) => WritersKeep(sys, market, marks, step);
    case CommitRow(_) => WritersKeep(sys, market, marks, step);
    case RollBackRow(_) => WritersKeep(sys, market, marks, step);
    case OpenBatch =>
      if sys.batch.None? {
        OpenKeeps(sys, market, marks);
        marks' := NewMarks(sys.rows, market, marks);
      }
    case SendRow(first, second) => SendKeeps(sys, market, marks, first, second);
    case LoseBatch => if sys.market == market { SameClient(sys, Perform(sys, step), marks); }
    case CommitBatch => CommitBatchKeeps(sys, market, marks);
    case SnapshotArrives => if sys.market == market { SnapshotKeeps(sys, marks); }
    case Connect(_) =>
  }

  // ---------------------------------------------------------------- every run

  lemma {:induction false} EveryRunKeeps(start: nat, steps: seq<Step>, market: nat) returns (marks: map<nat, Mark>)
    ensures Good(Run(Start(start), steps), market, marks)
  {
    if steps == [] {
      marks := map[];
    } else {
      var init := steps[..|steps| - 1];
      marks := EveryRunKeeps(start, init, market);
      PublishedWasBroadcast(start, init);
      marks := StepKeeps(Run(Start(start), init), market, marks, steps[|steps| - 1]);
    }
  }

  /**
   Whatever fails in the relay, in whatever order rows become visible and
   however many are in flight, the client acts on no row's frame twice while
   connected, and a row sent to it makes it act on exactly the delivered frames
   it has not acted on before.
   */
  lemma NoFrameAppliedTwice(start: nat, steps: seq<Step>, first: bool, second: bool)
    ensures var sys := Run(Start(start), steps);
            && NoRepeats(sys.applied)
            && (sys.batch.Some? && sys.batch.value.sent < |sys.batch.value.rows| ==>
                  var row := sys.batch.value.rows[sys.batch.value.sent];
                  var mine := Mine(sys.rows, sys.market, row);
                  Perform(sys, SendRow(first, second)).applied
                  == Applied(Applied(sys.applied, Frame(row, false), mine && first), Frame(row, true), mine && second))
  {
    var sys := Run(Start(start), steps);
    var marks := EveryRunKeeps(start, steps, sys.market);
    if sys.batch.Some? && sys.batch.value.sent < |sys.batch.value.rows| {
      DeliverKeeps(sys, marks, sys.batch.value.rows[sys.batch.value.sent], first, second);
    }
  }

  /** In every run, for a frame that can still be sent, the bounded set answers as an unlimited one would. */
  lemma AgreesWithUnlimited(start: nat, steps: seq<Step>, key: Key)
    requires key.Frame? && OutOfHand(Run(Start(start), steps).rows, key.row)
    requires !Run(Start(start), steps).rows[key.row].state.Published?
    ensures key in Run(Start(start), steps).seen <==> key in Run(Start(start), steps).applied
  {
    var sys := Run(Start(start), steps);
    var marks := EveryRunKeeps(start, steps, sys.market);
    if key in sys.applied { assert AtRisk(sys.rows, marks, key.row); }
  }
}
