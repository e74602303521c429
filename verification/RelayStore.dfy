/** The relay's pump over the outbox table and the client it broadcasts to, changed in place. */
module RelayStore {
  import opened Money
  import opened Relay

  class Client {
    var market: nat
    var seen: seq<Key>
    var applied: seq<Key>

    constructor (market: nat)
      ensures this.market == market && seen == [] && applied == []
    {
      this.market, seen, applied := market, [], [];
    }

    /** A fresh connection forgets what was seen on the last one. */
    method Reconnect(ghost sys: System, market: nat)
      modifies this
      ensures sys.(market := this.market, seen := seen, applied := applied) == Perform(sys, Connect(market))
    {
      this.market, seen, applied := market, [], [];
    }

    method ShouldApply(key: Key) returns (apply: bool)
      modifies this`seen
      ensures apply == (key.Snapshot? || key !in old(seen))
      ensures seen == if key.Snapshot? then NoteSnapshot(old(seen))
                      else if apply then Record(old(seen), key) else old(seen)
    {
      if key.Snapshot? {
        if key !in seen { seen := seen + [key]; }
        return true;
      }
      if key in seen { return false; }
      seen := seen + [key];
      if |seen| > CAP { seen := seen[1..]; }
      return true;
    }

    /** A frame on its way: it may be dropped, and is acted on only if the set says so. */
    method TakeFrame(ghost sys: System, row: nat, second: bool, delivered: bool)
      requires sys.seen == seen && sys.applied == applied
      modifies this`seen, this`applied
      ensures sys.(seen := seen, applied := applied) == Receive(sys, Frame(row, second), delivered)
    {
      if delivered {
        var apply := ShouldApply(Frame(row, second));
        if apply { applied := applied + [Frame(row, second)]; }
      }
    }
  }

  /** The connection passes a row on to its client, if it is one of the client's. */
  method PassOn(ghost sys: System, client: Client, row: nat, source: Source, first: bool, second: bool)
    requires sys.market == client.market && sys.seen == client.seen && sys.applied == client.applied
    requires row < |sys.rows| && source == sys.rows[row].source
    modifies client`seen, client`applied
    ensures sys.(seen := client.seen, applied := client.applied) == Deliver(sys, row, first, second)
  {
    if Visible(client.market, source) {
      client.TakeFrame(sys, row, false, first);
      client.TakeFrame(sys.(seen := client.seen, applied := client.applied), row, true, second);
    }
  }

  /** A batch is opened and `count` of its rows are broadcast. */
  ghost function Sends(count: nat, first: nat -> bool, second: nat -> bool): seq<Step> {
    if count == 0 then [OpenBatch]
    else Sends(count - 1, first, second) + [SendRow(first(count - 1), second(count - 1))]
  }

  lemma Opens(sys: System, first: nat -> bool, second: nat -> bool)
    requires sys.batch.None?
    ensures Run(sys, Sends(0, first, second)) == sys.(batch := Some(Batch(Claimed(sys.rows), 0)))
  {
    RunThen(sys, [], OpenBatch);
    assert [] + [OpenBatch] == [OpenBatch];
  }

  lemma SendsThen(sys: System, count: nat, first: nat -> bool, second: nat -> bool)
    ensures Run(sys, Sends(count + 1, first, second))
         == Perform(Run(sys, Sends(count, first, second)), SendRow(first(count), second(count)))
  {
    RunThen(sys, Sends(count, first, second), SendRow(first(count), second(count)));
  }

  /** The steps of one pump: claim, broadcast `count` rows, then commit the marks or lose them. */
  ghost function PumpSteps(count: nat, first: nat -> bool, second: nat -> bool, commits: bool): seq<Step> {
    Sends(count, first, second) + [if commits then CommitBatch else LoseBatch]
  }

  lemma {:induction false} WaitingPrefix(rows: seq<Row>, n: nat)
    requires n <= |rows|
    ensures |Waiting(rows[..n])| <= |Waiting(rows)|
    ensures Waiting(rows)[..|Waiting(rows[..n])|] == Waiting(rows[..n])
    decreases |rows|
  {
    if n < |rows| {
      assert rows[..|rows| - 1][..n] == rows[..n];
      WaitingPrefix(rows[..|rows| - 1], n);
    } else {
      assert rows[..n] == rows;
    }
  }

  lemma ClaimedAreRows(rows: seq<Row>)
    ensures forall i :: 0 <= i < |Claimed(rows)| ==> Claimed(rows)[i] < |rows|
  {
    forall i | 0 <= i < |Claimed(rows)| ensures Claimed(rows)[i] < |rows| { ClaimedIsVisible(rows, Claimed(rows)[i]); }
  }

  class Outbox {
    var rows: seq<Row>
    var bus: seq<nat>

    /** Table and client as one system, with no batch under way. */
    ghost function View(client: Client): System
      reads this, client
    {
      System(rows, None, bus, client.market, client.seen, client.applied)
    }

    constructor ()
      ensures rows == [] && bus == []
    {
      rows, bus := [], [];
    }

    /** The first visible unpublished rows in order, at most a batch of them. */
    method Claim() returns (claimed: seq<nat>)
      ensures claimed == Claimed(rows)
    {
      claimed := [];
      var next := 0;
      while next < |rows| && |claimed| < BATCH
        invariant next <= |rows| && |claimed| <= BATCH
        invariant claimed == Waiting(rows[..next])
      {
        assert rows[..next + 1][..next] == rows[..next];
        if rows[next].state.Committed? { claimed := claimed + [next]; }
        next := next + 1;
      }
      WaitingPrefix(rows, next);
      assert rows[..|rows|] == rows;
    }

    method MarkPublished(claimed: seq<nat>)
      requires forall i :: 0 <= i < |claimed| ==> claimed[i] < |rows|
      modifies this`rows
      ensures rows == Publish(old(rows), claimed)
    {
      for i := 0 to |claimed|
        invariant rows == Publish(old(rows), claimed[..i])
      {
        assert claimed[..i + 1] == claimed[..i] + [claimed[i]];
        rows := rows[claimed[i] := rows[claimed[i]].(state := Published)];
      }
      assert claimed[..|claimed|] == claimed;
    }

    /**
     One pump. It may stop after `sent` broadcasts, or fail to commit the
     marks; then nothing is published. Either way it is a run of the system.
     */
    method Pump(client: Client, sent: nat, commits: bool, first: nat -> bool, second: nat -> bool)
      returns (count: nat)
      modifies this, client
      ensures count == if sent < |Claimed(old(rows))| then sent else |Claimed(old(rows))|
      ensures View(client)
           == Run(old(View(client)), PumpSteps(count, first, second, commits && sent >= |Claimed(old(rows))|))
    {
      ghost var start := View(client);
      var claimed := Claim();
      Opens(start, first, second);
      ClaimedAreRows(rows);
      count := Broadcast(start, client, claimed, sent, first, second);
      ghost var done := if commits && count == |claimed| then CommitBatch else LoseBatch;
      RunThen(start, Sends(count, first, second), done);
      EndBatch(Under(client, claimed, count), client, claimed, commits && count == |claimed|);
    }

    /** The marks and the transaction's end: all claimed rows are published, or none. */
    method EndBatch(ghost sys: System, client: Client, claimed: seq<nat>, commits: bool)
      requires sys.batch.Some? && sys == Under(client, claimed, sys.batch.value.sent) && claimed == Claimed(rows)
      requires commits ==> sys.batch.value.sent == |claimed|
      modifies this`rows
      ensures View(client) == Perform(sys, if commits then CommitBatch else LoseBatch)
    {
      if commits {
        ClaimedAreRows(rows);
        MarkPublished(claimed);
      }
    }

    ghost function Under(client: Client, claimed: seq<nat>, sent: nat): System
      reads this, client
    {
      System(rows, Some(Batch(claimed, sent)), bus, client.market, client.seen, client.applied)
    }

    /** The batch has come to its `count`-th row. */
    ghost predicate SentTo(start: System, client: Client, claimed: seq<nat>, count: nat,
                           first: nat -> bool, second: nat -> bool)
      reads this, client
    {
      && Under(client, claimed, count) == Run(start, Sends(count, first, second))
      && forall i :: 0 <= i < |claimed| ==> claimed[i] < |rows|
    }

    method SendOne(ghost start: System, client: Client, claimed: seq<nat>, count: nat,
                   first: nat -> bool, second: nat -> bool)
      requires count < |claimed| && SentTo(start, client, claimed, count, first, second)
      modifies this`bus, client`seen, client`applied
      ensures SentTo(start, client, claimed, count + 1, first, second)
    {
      SendsThen(start, count, first, second);
      var row := claimed[count];
      PassOn(Under(client, claimed, count), client, row, rows[row].source, first(count), second(count));
      bus := bus + [row];
    }

    method Broadcast(ghost start: System, client: Client, claimed: seq<nat>, sent: nat,
                     first: nat -> bool, second: nat -> bool)
      returns (count: nat)
      requires SentTo(start, client, claimed, 0, first, second)
      modifies this`bus, client`seen, client`applied
      ensures count == if sent < |claimed| then sent else |claimed|
      ensures SentTo(start, client, claimed, count, first, second)
    {
      count := 0;
      while count < |claimed| && count < sent
        invariant count <= |claimed| && count <= sent
        invariant SentTo(start, client, claimed, count, first, second)
      {
        SendOne(start, client, claimed, count, first, second);
        count := count + 1;
      }
    }
  }
}
