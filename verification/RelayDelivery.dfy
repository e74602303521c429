/** What one undisturbed pump achieves, after any run. */
module RelayDelivery {
  import opened Money
  import opened Relay
  import opened RelayStore

  lemma {:induction false} RunAppend(sys: System, left: seq<Step>, right: seq<Step>)
    ensures Run(sys, left + right) == Run(Run(sys, left), right)
    decreases |right|
  {
    if right == [] {
      assert left + right == left;
    } else {
      assert (left + right)[..|left + right| - 1] == left + right[..|right| - 1];
      RunAppend(sys, left, right[..|right| - 1]);
    }
  }

  /** The frames of a claimed row that were delivered to the client have been acted on. */
  predicate Delivered(start: System, applied: seq<Key>, row: nat, first: bool, second: bool) {
    Mine(start.rows, start.market, row) ==>
      (first ==> Frame(row, false) in applied) && (second ==> Frame(row, true) in applied)
  }

  /** The first `count` claimed rows have gone out; nothing else of the table or the connection has changed. */
  ghost predicate SentSoFar(sys: System, start: System, count: nat, first: nat -> bool, second: nat -> bool) {
    var claimed := Claimed(start.rows);
    && count <= |claimed| && sys.rows == start.rows && sys.market == start.market
    && sys.batch == Some(Batch(claimed, count)) && sys.bus == start.bus + claimed[..count]
    && forall i :: 0 <= i < count ==> Delivered(start, sys.applied, claimed[i], first(i), second(i))
  }

  lemma SendsOneMore(sys: System, start: System, count: nat, first: nat -> bool, second: nat -> bool)
    requires SentSoFar(sys, start, count, first, second) && count < |Claimed(start.rows)|
    requires var row := Claimed(start.rows)[count];
             var mine := Mine(sys.rows, sys.market, row);
             Perform(sys, SendRow(first(count), second(count))).applied
             == Applied(Applied(sys.applied, Frame(row, false), mine && first(count)), Frame(row, true),
                        mine && second(count))
    ensures SentSoFar(Perform(sys, SendRow(first(count), second(count))), start, count + 1, first, second)
  {
    var claimed := Claimed(start.rows);
    var after := Perform(sys, SendRow(first(count), second(count)));
    assert claimed[..count + 1] == claimed[..count] + [claimed[count]];
    DeliverElsewhere(sys, claimed[count], first(count), second(count));
    forall i | 0 <= i < count + 1 ensures Delivered(start, after.applied, claimed[i], first(i), second(i)) {
      if i < count { assert Delivered(start, sys.applied, claimed[i], first(i), second(i)); }
    }
  }

  lemma {:induction false} PumpSends(market: nat, before: seq<Step>, count: nat, first: nat -> bool,
                                     second: nat -> bool)
    requires Run(Start(market), before).batch.None?
    requires count <= |Claimed(Run(Start(market), before).rows)|
    ensures var start := Run(Start(market), before);
            SentSoFar(Run(start, Sends(count, first, second)), start, count, first, second)
    decreases count
  {
    var start := Run(Start(market), before);
    if count == 0 {
      Opens(start, first, second);
      assert start.bus + Claimed(start.rows)[..0] == start.bus;
    } else {
      PumpSends(market, before, count - 1, first, second);
      SendsThen(start, count - 1, first, second);
      RunAppend(Start(market), before, Sends(count - 1, first, second));
      NoFrameAppliedTwice(market, before + Sends(count - 1, first, second), first(count - 1), second(count - 1));
      SendsOneMore(Run(start, Sends(count - 1, first, second)), start, count - 1, first, second);
    }
  }

  /** The claimed rows have gone out and are the only ones newly published; their delivered frames are acted on. */
  ghost predicate Pumped(end: System, start: System, first: nat -> bool, second: nat -> bool) {
    var claimed := Claimed(start.rows);
    && end.bus == start.bus + claimed && end.batch.None? && |end.rows| == |start.rows|
    && (forall k :: 0 <= k < |start.rows| ==>
          end.rows[k] == if k in claimed then start.rows[k].(state := Published) else start.rows[k])
    && (forall i :: 0 <= i < |claimed| ==> Delivered(start, end.applied, claimed[i], first(i), second(i)))
  }

  lemma CommitEnds(sys: System, start: System, first: nat -> bool, second: nat -> bool)
    requires SentSoFar(sys, start, |Claimed(start.rows)|, first, second)
    ensures Pumped(Perform(sys, CommitBatch), start, first, second)
  {
    assert Claimed(start.rows)[..|Claimed(start.rows)|] == Claimed(start.rows);
  }

  /**
   After any run, a pump that is not disturbed broadcasts the first waiting
   rows, up to a batch of them, marks exactly those published, and the client
   has then acted on every frame of its own that was delivered.
   */
  lemma PumpDelivers(market: nat, before: seq<Step>, first: nat -> bool, second: nat -> bool)
    requires Run(Start(market), before).batch.None?
    ensures var start := Run(Start(market), before);
            Pumped(Run(start, PumpSteps(|Claimed(start.rows)|, first, second, true)), start, first, second)
  {
    var start := Run(Start(market), before);
    var count := |Claimed(start.rows)|;
    PumpSends(market, before, count, first, second);
    RunThen(start, Sends(count, first, second), CommitBatch);
    CommitEnds(Run(start, Sends(count, first, second)), start, first, second);
  }
}
