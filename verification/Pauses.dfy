/**
 Pauses against trades and votes in flight. A trade or vote reads the switches
 with its fences held; a writer changes a switch with its fence held alone.
 */
module Pauses {
  import opened Money
  import opened Switches
  import opened Locks

  function FenceOf(switch: Switch): Lock {
    match switch
    case TradingPaused => GlobalFence
    case MarketPaused(m) => TradingFence(m)
    case VotingPaused(m) => VotingFence(m)
  }

  /** Collects the fences of a patch, key by key; they come out sorted, without repeats, the global one first. */
  method ExclusiveFences(patch: seq<Change>) returns (fences: seq<Lock>)
    ensures fences == PatchFences(patch)
  {
    var global, trading, voting := false, [], [];
    for i := 0 to |patch|
      invariant global == Touches(patch[..i], TradingPaused)
      invariant trading == TradingMarkets(patch[..i]) && voting == VotingMarkets(patch[..i])
    {
      assert patch[..i + 1][..i] == patch[..i];
      TouchesNext(patch[..i], patch[i], TradingPaused);
      assert patch[..i] + [patch[i]] == patch[..i + 1];
      match patch[i].switch
      case TradingPaused => global := true;
      case MarketPaused(m) => trading := trading + [m];
      case VotingPaused(m) => voting := voting + [m];
    }
    assert patch[..|patch|] == patch;
    fences := FencesOver(global, SortDedup(trading), SortDedup(voting));
  }

  lemma TouchesNext(changes: seq<Change>, last: Change, switch: Switch)
    ensures Touches(changes + [last], switch) <==> Touches(changes, switch) || last.switch == switch
  {
    if Touches(changes, switch) {
      var i :| 0 <= i < |changes| && changes[i].switch == switch;
      assert (changes + [last])[i].switch == switch;
    }
    if last.switch == switch { assert (changes + [last])[|changes|].switch == switch; }
  }

  // ---------------------------------------------------------------- who holds which fence

  lemma {:induction false} TradingMarketListed(patch: seq<Change>, m: nat)
    requires Touches(patch, MarketPaused(m))
    ensures m in TradingMarkets(patch)
  {
    var i :| 0 <= i < |patch| && patch[i].switch == MarketPaused(m);
    if i < |patch| - 1 {
      assert patch[..|patch| - 1][i].switch == MarketPaused(m);
      TradingMarketListed(patch[..|patch| - 1], m);
    }
  }

  lemma {:induction false} VotingMarketListed(patch: seq<Change>, m: nat)
    requires Touches(patch, VotingPaused(m))
    ensures m in VotingMarkets(patch)
  {
    var i :| 0 <= i < |patch| && patch[i].switch == VotingPaused(m);
    if i < |patch| - 1 {
      assert patch[..|patch| - 1][i].switch == VotingPaused(m);
      VotingMarketListed(patch[..|patch| - 1], m);
    }
  }

  lemma FenceListed(global: bool, trading: seq<nat>, voting: seq<nat>, l: Lock)
    requires l.Fence() && (l.GlobalFence? ==> global)
    requires (l.TradingFence? ==> l.market in trading) && (l.VotingFence? ==> l.market in voting)
    ensures l in FencesOver(global, trading, voting)
  {
    if l.TradingFence? {
      var i :| 0 <= i < |trading| && trading[i] == l.market;
      assert TradingFences(trading)[i] == l;
    } else if l.VotingFence? {
      var i :| 0 <= i < |voting| && voting[i] == l.market;
      assert VotingFences(voting)[i] == l;
    }
  }

  lemma PatchFenceListed(patch: seq<Change>, switch: Switch)
    requires Touches(patch, switch)
    ensures FenceOf(switch) in PatchFences(patch)
  {
    if switch.MarketPaused? { TradingMarketListed(patch, switch.market); }
    if switch.VotingPaused? { VotingMarketListed(patch, switch.market); }
    FenceListed(Touches(patch, TradingPaused), SortDedup(TradingMarkets(patch)), SortDedup(VotingMarkets(patch)),
                FenceOf(switch));
  }

  /** A writer about to commit holds the fence of every switch it changes. */
  lemma WriterHoldsFence(x: Txn, switch: Switch)
    requires x.command.Configure? && !Waiting(x) && Touches(x.command.patch, switch)
    ensures Holds(x, FenceOf(switch))
  {
    PatchFenceListed(x.command.patch, switch);
    InsideIsHeld(x, if x.command.proposal.Some? then [ProposalLock(x.command.proposal.value)] else [],
                 PatchFences(x.command.patch), [GenerationLock], FenceOf(switch));
  }

  lemma InsideIsHeld(x: Txn, left: seq<Lock>, middle: seq<Lock>, right: seq<Lock>, l: Lock)
    requires Requests(x.command, x.listed) == left + middle + right && !Waiting(x) && l in middle
    ensures Holds(x, l)
  {
    var i :| 0 <= i < |middle| && middle[i] == l;
    assert Requests(x.command, x.listed)[|left| + i] == l;
  }

  /** The switches whose fences a trade or vote holds once it waits no more. */
  predicate Protects(command: Command, switch: Switch) {
    match command
    case Trade(_, _, m, _) => switch.TradingPaused? || switch == MarketPaused(m)
    case Vote(_, _, m, _) => switch == VotingPaused(m)
    case _ => false
  }

  lemma ReaderHoldsFence(x: Txn, switch: Switch)
    requires !Waiting(x) && Protects(x.command, switch)
    ensures Holds(x, FenceOf(switch))
  {
    var locks := Requests(x.command, x.listed);
    if x.command.Vote? {
      assert locks[3] == FenceOf(switch);
    } else if switch.TradingPaused? {
      assert locks[3] == FenceOf(switch);
    } else {
      assert locks[4] == FenceOf(switch);
    }
  }

  /** While a trade or vote holds its fences, no writer commits a change of a switch they protect. */
  lemma FencedIsUntouched(table: map<nat, Txn>, reader: nat, writer: nat, switch: Switch)
    requires Exclusive(table) && reader in table && writer in table
    requires !Waiting(table[reader]) && !Waiting(table[writer])
    requires Protects(table[reader].command, switch) && table[writer].command.Configure?
    ensures !Touches(table[writer].command.patch, switch)
  {
    if Touches(table[writer].command.patch, switch) {
      ReaderHoldsFence(table[reader], switch);
      WriterHoldsFence(table[writer], switch);
    }
  }

  // ---------------------------------------------------------------- what a check is worth later

  /** Of what a check saw, the part its fences keep true. */
  predicate StillClear(history: seq<Change>, command: Command) {
    match command
    case Trade(_, _, m, _) => !InForce(history, TradingPaused) && !InForce(history, MarketPaused(m))
    case Vote(_, _, m, hidden) => hidden || !InForce(history, VotingPaused(m))
    case _ => true
  }

  ghost predicate Kept(x: Txn, history: seq<Change>) {
    x.checked.Some? ==>
      && (x.command.Trade? || x.command.Vote?) && !Waiting(x) && x.checked.value <= |history|
      && Clear(history[..x.checked.value], x.command) && StillClear(history, x.command)
  }

  ghost predicate AllKept(sys: System) { forall t :: t in sys.table ==> Kept(sys.table[t], sys.db.history) }

  lemma WritingKeeps(sys: System, reader: nat, writer: nat)
    requires Exclusive(sys.table) && reader in sys.table && writer in sys.table && reader != writer
    requires Kept(sys.table[reader], sys.db.history) && CanCommit(sys.table[writer])
    ensures Kept(sys.table[reader], Written(sys.db, sys.table[writer].command).history)
  {
    var x, y := sys.table[reader], sys.table[writer];
    if x.checked.Some? && y.command.Configure? {
      var later := sys.db.history + y.command.patch;
      assert later[..x.checked.value] == sys.db.history[..x.checked.value];
      forall switch | Protects(x.command, switch)
        ensures InForce(later, switch) <==> InForce(sys.db.history, switch)
      {
        FencedIsUntouched(sys.table, reader, writer, switch);
        LaterChangesDecide(sys.db.history, y.command.patch, switch);
      }
    }
  }

  lemma CheckKeeps(x: Txn, history: seq<Change>)
    requires CanCheck(x) && Clear(history, x.command)
    ensures Kept(x.(checked := Some(|history|)), history)
  {
    assert history[..|history|] == history;
  }

  lemma StepKeepsChecks(sys: System, step: Step)
    requires Inv(sys) && AllKept(sys)
    ensures AllKept(Perform(sys, step))
  {
    if step.Commit? && step.t in sys.table && CanCommit(sys.table[step.t]) {
      forall s | s in sys.table && s != step.t
        ensures Kept(sys.table[s], Written(sys.db, sys.table[step.t].command).history)
      {
        WritingKeeps(sys, s, step.t);
      }
    }
    if step.CheckPauses? && step.t in sys.table && CanCheck(sys.table[step.t])
       && Clear(sys.db.history, sys.table[step.t].command) {
      CheckKeeps(sys.table[step.t], sys.db.history);
    }
  }

  lemma {:induction false} EveryRunKeepsChecks(steps: seq<Step>)
    ensures AllKept(Run(EMPTY, steps))
  {
    if steps != [] {
      EveryRunKeepsChecks(steps[..|steps| - 1]);
      RunKeepsInv(EMPTY, steps[..|steps| - 1]);
      StepKeepsChecks(Run(EMPTY, steps[..|steps| - 1]), steps[|steps| - 1]);
    }
  }

  // ---------------------------------------------------------------- every run

  /** No trade is committed while trading is paused, everywhere or on its market. */
  lemma NoTradeUnderTradingPause(steps: seq<Step>, t: nat)
    requires var sys := Run(EMPTY, steps); t in sys.table && sys.table[t].command.Trade? && CanCommit(sys.table[t])
    ensures var sys := Run(EMPTY, steps);
            && !InForce(sys.db.history, TradingPaused)
            && !InForce(sys.db.history, MarketPaused(sys.table[t].command.market))
  {
    EveryRunKeepsChecks(steps);
  }

  /** No vote is committed while voting on its market is paused, until the tally is hidden. */
  lemma NoVoteUnderVotingPause(steps: seq<Step>, t: nat)
    requires var sys := Run(EMPTY, steps); t in sys.table && sys.table[t].command.Vote? && CanCommit(sys.table[t])
    ensures var sys := Run(EMPTY, steps);
            sys.table[t].command.hidden || !InForce(sys.db.history, VotingPaused(sys.table[t].command.market))
  {
    EveryRunKeepsChecks(steps);
  }

  /**
   A trade reads the voting switch without its fence. It is committed under a
   voting pause if and only if the changes made since its reads leave one in force.
   */
  lemma TradeUnderVotingPauseIff(steps: seq<Step>, t: nat)
    requires var sys := Run(EMPTY, steps); t in sys.table && sys.table[t].command.Trade? && CanCommit(sys.table[t])
    ensures var sys := Run(EMPTY, steps);
            var x := sys.table[t];
            && x.checked.value <= |sys.db.history|
            && (InForce(sys.db.history, VotingPaused(x.command.market))
                <==> InForce(sys.db.history[x.checked.value..], VotingPaused(x.command.market)))
  {
    EveryRunKeepsChecks(steps);
    var sys := Run(EMPTY, steps);
    var x, history := sys.table[t], sys.db.history;
    var switch, at := VotingPaused(x.command.market), x.checked.value;
    assert Kept(x, history);
    assert history == history[..at] + history[at..];
    LaterChangesDecide(history[..at], history[at..], switch);
    if InForce(history[at..], switch) { InForceIsTouched(history[at..], switch); }
  }

  /** Whoever holds a fence has every row lock it needs: a pause waits for writers at work, never for a queue. */
  lemma FenceHoldersAreAtWork(x: Txn, l: Lock)
    requires l.Fence() && Holds(x, l) && Waiting(x)
    ensures Wants(x).Fence() || Wants(x).GenerationLock?
  {
    WantsAbove(x, l);
    AboveFence(l, Wants(x));
  }

  lemma AboveFence(l: Lock, next: Lock)
    requires l.Fence() && Below(l, next)
    ensures next.Fence() || next.GenerationLock?
  {
  }

  // ---------------------------------------------------------------- a run that trades against a frozen tape

  lemma {:induction false} RunAppend(sys: System, left: seq<Step>, right: seq<Step>)
    ensures Run(sys, left + right) == Run(Run(sys, left), right)
    decreases |right|
  {
    if right == [] {
      assert left + right == left;
    } else {
      assert (left + right)[..|left + right| - 1] == left + right[..|right| - 1];
      RunAppend(sys, left, right[..|right| - 1]);
    }
  }

  lemma RunThen(sys: System, steps: seq<Step>, step: Step)
    ensures Run(sys, steps + [step]) == Perform(Run(sys, steps), step)
  {
    assert (steps + [step])[..|steps|] == steps;
  }

  /** A run passes through the states its steps lead to. */
  lemma {:induction false} RunPasses(states: seq<System>, steps: seq<Step>)
    requires |states| == |steps| + 1
    requires forall i :: 0 <= i < |steps| ==> Perform(states[i], steps[i]) == states[i + 1]
    ensures Run(states[0], steps) == states[|steps|]
    decreases |steps|
  {
    if steps != [] {
      RunPasses(states[..|steps|], steps[..|steps| - 1]);
      assert Perform(states[|steps| - 1], steps[|steps| - 1]) == states[|steps|];
    }
  }

  /** A transaction begins and is granted its first `n` locks. */
  function Acquire(t: nat, command: Command, n: nat): seq<Step> { [Begin(t, command)] + seq(n, _ => Grant(t)) }

  lemma GrantNext(sys: System, t: nat, x: Txn)
    requires t !in sys.table && Waiting(x) && Free(sys.table, x.command, Wants(x))
    ensures Perform(sys.(table := sys.table[t := x]), Grant(t))
         == sys.(table := sys.table[t := x.(held := x.held + 1)])
  {
    var table := sys.table[t := x];
    WantsAbove(x, Wants(x));
    assert Free(table, x.command, Wants(x));
    assert table[t := x.(held := x.held + 1)] == sys.table[t := x.(held := x.held + 1)];
  }

  function Begun(sys: System, t: nat, command: Command, n: nat): System {
    sys.(table := sys.table[t := Txn(command, None, n, false, None)])
  }

  ghost predicate AllFree(table: map<nat, Txn>, command: Command, locks: seq<Lock>) {
    forall i :: 0 <= i < |locks| ==> Free(table, command, locks[i])
  }

  lemma GrantsOneMore(sys: System, t: nat, command: Command, locks: seq<Lock>, n: nat)
    requires t !in sys.table && locks == Requests(command, None) && n < |locks| && AllFree(sys.table, command, locks)
    ensures Perform(Begun(sys, t, command, n), Grant(t)) == Begun(sys, t, command, n + 1)
  {
    assert Free(sys.table, command, locks[n]);
    GrantNext(sys, t, Txn(command, None, n, false, None));
  }

  function Progress(sys: System, t: nat, command: Command, i: nat): System {
    if i == 0 then sys else Begun(sys, t, command, i - 1)
  }

  lemma ProgressesBy(sys: System, t: nat, command: Command, locks: seq<Lock>, n: nat, i: nat)
    requires t !in sys.table && locks == Requests(command, None) && n <= |locks| && AllFree(sys.table, command, locks)
    requires i <= n
    ensures Perform(Progress(sys, t, command, i), Acquire(t, command, n)[i]) == Progress(sys, t, command, i + 1)
  {
    if i > 0 { GrantsOneMore(sys, t, command, locks, i - 1); }
  }

  lemma AcquiresFree(sys: System, t: nat, command: Command, locks: seq<Lock>, n: nat)
    requires t !in sys.table && locks == Requests(command, None) && n <= |locks| && AllFree(sys.table, command, locks)
    ensures Run(sys, Acquire(t, command, n)) == Begun(sys, t, command, n)
  {
    var steps := Acquire(t, command, n);
    var states := seq(n + 2, i requires i >= 0 => Progress(sys, t, command, i));
    forall i | 0 <= i < |steps| ensures Perform(states[i], steps[i]) == states[i + 1] {
      ProgressesBy(sys, t, command, locks, n, i);
    }
    RunPasses(states, steps);
  }

  function PauseVoting(proposal: nat, market: nat): Command {
    Configure(Some(proposal), [Change(VotingPaused(market), true)])
  }

  function PauseLocks(proposal: nat, market: nat): seq<Lock> {
    [ProposalLock(proposal), VotingFence(market), GenerationLock]
  }

  lemma OneVotingPause(change: Change, market: nat)
    requires change.switch == VotingPaused(market)
    ensures TradingMarkets([change]) == [] && VotingMarkets([change]) == [market] && !Touches([change], TradingPaused)
    ensures SortDedup([market]) == [market] && SortDedup([]) == []
  {
    assert [change][..0] == [];
    assert VotingMarkets([change][..0]) == [] && TradingMarkets([change][..0]) == [];
    assert [market][..0] == [];
    assert SortDedup([market][..0]) == [];
  }

  lemma PauseRequests(proposal: nat, market: nat)
    ensures Requests(PauseVoting(proposal, market), None) == PauseLocks(proposal, market)
  {
    var patch := [Change(VotingPaused(market), true)];
    OneVotingPause(patch[0], market);
    assert PatchFences(patch) == [VotingFence(market)];
  }

  function Paused(sys: System, market: nat): System {
    sys.(db := sys.db.(history := sys.db.history + [Change(VotingPaused(market), true)]))
  }

  lemma PauseCommits(sys: System, writer: nat, proposal: nat, market: nat)
    requires writer !in sys.table
    ensures Perform(Begun(sys, writer, PauseVoting(proposal, market), 3), Commit(writer)) == Paused(sys, market)
  {
    PauseRequests(proposal, market);
    var x := Txn(PauseVoting(proposal, market), None, 3, false, None);
    assert CanCommit(x);
    assert sys.table[writer := x] - {writer} == sys.table;
  }

  function WritePause(writer: nat, proposal: nat, market: nat): seq<Step> {
    Acquire(writer, PauseVoting(proposal, market), 3) + [Commit(writer)]
  }

  lemma PauseIsWritten(sys: System, writer: nat, proposal: nat, market: nat)
    requires writer !in sys.table && AllFree(sys.table, PauseVoting(proposal, market), PauseLocks(proposal, market))
    ensures Run(sys, WritePause(writer, proposal, market)) == Paused(sys, market)
  {
    PauseRequests(proposal, market);
    AcquiresFree(sys, writer, PauseVoting(proposal, market), PauseLocks(proposal, market), 3);
    RunThen(sys, Acquire(writer, PauseVoting(proposal, market), 3), Commit(writer));
    PauseCommits(sys, writer, proposal, market);
  }

  /**
   Any trade that has read its switches can be overtaken: a voting pause on its
   market needs none of its locks, and the trade is then committed against it.
   */
  lemma PauseOvertakesTrade(sys: System, t: nat, writer: nat, proposal: nat)
    requires t in sys.table && sys.table[t].command.Trade? && CanCommit(sys.table[t])
    requires (sys.table[t].command.market, sys.table[t].command.user) in sys.db.voters && writer !in sys.table
    requires var market := sys.table[t].command.market;
             AllFree(sys.table, PauseVoting(proposal, market), PauseLocks(proposal, market))
    ensures var trade := sys.table[t].command;
            var after := Run(sys, WritePause(writer, proposal, trade.market) + [Commit(t)]);
            && t !in after.table && (trade.market, trade.user) in after.db.traders
            && InForce(after.db.history, VotingPaused(trade.market))
  {
    var market := sys.table[t].command.market;
    PauseIsWritten(sys, writer, proposal, market);
    RunThen(sys, WritePause(writer, proposal, market), Commit(t));
    TradeCommits(Paused(sys, market), t);
  }

  lemma TradeCommits(sys: System, t: nat)
    requires t in sys.table && sys.table[t].command.Trade? && CanCommit(sys.table[t])
    requires (sys.table[t].command.market, sys.table[t].command.user) in sys.db.voters
    ensures var trade, after := sys.table[t].command, Perform(sys, Commit(t));
            && t !in after.table && (trade.market, trade.user) in after.db.traders
            && after.db.history == sys.db.history
  {
  }

  const VOTE := Vote(0, 0, 0, false)
  const TRADE := Trade(1, 0, 0, true)

  function VoteAlone(): seq<Step> { Acquire(0, VOTE, 4) + [CheckPauses(0)] + [Commit(0)] }

  function TradeAlone(): seq<Step> { Acquire(1, TRADE, 5) + [CheckPauses(1)] }

  lemma VoteGoesThrough()
    ensures Run(EMPTY, VoteAlone()) == System(map[], Db({(0, 0)}, {}, {}, map[], []))
  {
    AcquiresFree(EMPTY, 0, VOTE, Requests(VOTE, None), 4);
    RunThen(EMPTY, Acquire(0, VOTE, 4), CheckPauses(0));
    RunThen(EMPTY, Acquire(0, VOTE, 4) + [CheckPauses(0)], Commit(0));
    VotePasses();
  }

  lemma VotePasses()
    ensures Perform(Perform(Begun(EMPTY, 0, VOTE, 4), CheckPauses(0)), Commit(0))
         == System(map[], Db({(0, 0)}, {}, {}, map[], []))
  {
    var x := Txn(VOTE, None, 4, false, Some(0));
    assert Perform(Begun(EMPTY, 0, VOTE, 4), CheckPauses(0)) == EMPTY.(table := map[0 := x]);
    assert map[0 := x] - {0} == map[];
  }

  lemma TradePasses(sys: System)
    requires 1 !in sys.table && sys.db.history == []
    ensures Perform(Begun(sys, 1, TRADE, 5), CheckPauses(1))
         == sys.(table := sys.table[1 := Txn(TRADE, None, 5, false, Some(0))])
  {
  }

  lemma TradeIsReady()
    ensures Run(EMPTY, VoteAlone() + TradeAlone())
         == System(map[1 := Txn(TRADE, None, 5, false, Some(0))], Db({(0, 0)}, {}, {}, map[], []))
  {
    VoteGoesThrough();
    RunAppend(EMPTY, VoteAlone(), TradeAlone());
    TradeGoesFirst(System(map[], Db({(0, 0)}, {}, {}, map[], [])));
  }

  lemma TradeGoesFirst(sys: System)
    requires sys.table == map[] && sys.db.history == []
    ensures Run(sys, TradeAlone()) == sys.(table := map[1 := Txn(TRADE, None, 5, false, Some(0))])
  {
    AcquiresFree(sys, 1, TRADE, Requests(TRADE, None), 5);
    RunThen(sys, Acquire(1, TRADE, 5), CheckPauses(1));
    TradePasses(sys);
  }

  lemma TradeHoldsNoPauseLock(l: Lock)
    requires l.ProposalLock? || l.VotingFence? || l.GenerationLock?
    ensures !Holds(Txn(TRADE, None, 5, false, Some(0)), l)
  {
  }

  lemma PauseIsFree(command: Command, locks: seq<Lock>)
    requires locks == PauseLocks(0, 0)
    ensures AllFree(map[1 := Txn(TRADE, None, 5, false, Some(0))], command, locks)
  {
    forall i | 0 <= i < |locks| ensures Free(map[1 := Txn(TRADE, None, 5, false, Some(0))], command, locks[i]) {
      TradeHoldsNoPauseLock(locks[i]);
    }
  }

  /** It happens: a run from the start whose last step commits a trade while voting on its market is paused. */
  lemma TradesAgainstFrozenTape() returns (steps: seq<Step>)
    ensures var before, after := Run(EMPTY, steps), Run(EMPTY, steps + [Commit(1)]);
            && (0, 0) !in before.db.traders && (0, 0) in after.db.traders
            && InForce(after.db.history, VotingPaused(0))
  {
    TradeIsReady();
    var first, ready := VoteAlone() + TradeAlone(), Run(EMPTY, VoteAlone() + TradeAlone());
    steps := first + WritePause(2, 0, 0);
    PauseIsFree(PauseVoting(0, 0), PauseLocks(0, 0));
    PauseIsWritten(ready, 2, 0, 0);
    RunAppend(EMPTY, first, WritePause(2, 0, 0));
    RunThen(EMPTY, steps, Commit(1));
    TradeCommits(Paused(ready, 0), 1);
  }
}
