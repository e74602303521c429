/**
 The lock order of the money commands: keys, then users ascending, then market,
 then the fences that pauses are written under. Locks are held to the end of a
 transaction. A resolution must hold the lock of everyone it pays or scores,
 although it can only list them before it locks.
 */
module Locks {
  import opened Money
  import opened Switches

  /**
   A command's own key, a bind's pair and referee keys, users, markets, a
   configuration proposal, the three kinds of fence, and the configuration's
   generation row.
   */
  datatype Lock =
    | KeyLock(key: nat) | PairLock(pair: nat) | RefereeLock(referee: nat) | UserLock(user: nat)
    | MarketLock(market: nat) | ProposalLock(proposal: nat)
    | GlobalFence | TradingFence(market: nat) | VotingFence(market: nat) | GenerationLock
  {
    function Class(): nat {
      match this
      case KeyLock(_) => 1
      case PairLock(_) => 2
      case RefereeLock(_) => 3
      case UserLock(_) => 4
      case MarketLock(_) => 5
      case ProposalLock(_) => 6
      case GlobalFence => 7
      case TradingFence(_) => 8
      case VotingFence(_) => 9
      case GenerationLock => 10
    }
    function Id(): nat {
      match this
      case KeyLock(k) => k
      case PairLock(p) => p
      case RefereeLock(r) => r
      case UserLock(u) => u
      case MarketLock(m) => m
      case ProposalLock(p) => p
      case GlobalFence => 0
      case TradingFence(m) => m
      case VotingFence(m) => m
      case GenerationLock => 0
    }
    predicate Fence() { GlobalFence? || TradingFence? || VotingFence? }
  }

  predicate Below(a: Lock, b: Lock) { a.Class() < b.Class() || (a.Class() == b.Class() && a.Id() < b.Id()) }

  predicate Ascending(locks: seq<Lock>) {
    forall i, j :: 0 <= i < j < |locks| ==> Below(locks[i], locks[j])
  }

  // ---------------------------------------------------------------- sorted users

  predicate StrictlySorted(s: seq<nat>) { forall i, j :: 0 <= i < j < |s| ==> s[i] < s[j] }

  /** Puts one user into a sorted list without repeats. */
  function Insert(s: seq<nat>, u: nat): (r: seq<nat>)
    requires StrictlySorted(s)
    ensures StrictlySorted(r)
    ensures forall v :: v in r <==> v in s || v == u
  {
    if s == [] then [u]
    else if s[|s| - 1] == u then s
    else if s[|s| - 1] < u then s + [u]
    else
      assert s == s[..|s| - 1] + [s[|s| - 1]];
      var front := Insert(s[..|s| - 1], u);
      assert forall i :: 0 <= i < |front| ==> front[i] in front;
      front + [s[|s| - 1]]
  }

  /** Sorted, without repeats, and the same users. */
  function SortDedup(users: seq<nat>): (r: seq<nat>)
    ensures StrictlySorted(r)
    ensures forall v :: v in r <==> v in users
  {
    if users == [] then []
    else
      assert users == users[..|users| - 1] + [users[|users| - 1]];
      Insert(SortDedup(users[..|users| - 1]), users[|users| - 1])
  }

  // ---------------------------------------------------------------- commands and their locks

  datatype Command =
    | Trade(key: nat, user: nat, market: nat, holdsAfter: bool)
    | Vote(key: nat, user: nat, market: nat, hidden: bool)
    | Admission(key: nat, owner: Option<nat>)
    | Bind(key: nat, pair: nat, referrer: nat, referee: nat)
    | Resolution(key: nat, market: nat)
    | Configure(proposal: Option<nat>, patch: seq<Change>)

  /**
   A running transaction: how many of its locks it holds; for a resolution,
   whom it has listed, and whether the list still covered everyone once locked;
   for a trade or vote, how many changes had been made when it read the switches.
   */
  datatype Txn = Txn(command: Command, listed: Option<seq<nat>>, held: nat, passed: bool, checked: Option<nat>)

  /** Trades and votes share their fences; every other lock is exclusive. */
  predicate Shares(command: Command, l: Lock) { (command.Trade? || command.Vote?) && l.Fence() }

  predicate Compatible(a: Command, b: Command, l: Lock) { Shares(a, l) && Shares(b, l) }

  function UserLocks(users: seq<nat>): (locks: seq<Lock>)
    ensures |locks| == |users| && forall i :: 0 <= i < |users| ==> locks[i] == UserLock(users[i])
  {
    seq(|users|, i requires 0 <= i < |users| => UserLock(users[i]))
  }

  function TradingFences(markets: seq<nat>): (locks: seq<Lock>)
    ensures |locks| == |markets| && forall i :: 0 <= i < |markets| ==> locks[i] == TradingFence(markets[i])
  {
    seq(|markets|, i requires 0 <= i < |markets| => TradingFence(markets[i]))
  }

  function VotingFences(markets: seq<nat>): (locks: seq<Lock>)
    ensures |locks| == |markets| && forall i :: 0 <= i < |markets| ==> locks[i] == VotingFence(markets[i])
  {
    seq(|markets|, i requires 0 <= i < |markets| => VotingFence(markets[i]))
  }

  /** The markets whose trading pauses a patch changes. */
  function TradingMarkets(patch: seq<Change>): seq<nat> {
    if patch == [] then []
    else
      var last := patch[|patch| - 1].switch;
      TradingMarkets(patch[..|patch| - 1]) + if last.MarketPaused? then [last.market] else []
  }

  function VotingMarkets(patch: seq<Change>): seq<nat> {
    if patch == [] then []
    else
      var last := patch[|patch| - 1].switch;
      VotingMarkets(patch[..|patch| - 1]) + if last.VotingPaused? then [last.market] else []
  }

  function FencesOver(global: bool, trading: seq<nat>, voting: seq<nat>): seq<Lock> {
    (if global then [GlobalFence] else []) + TradingFences(trading) + VotingFences(voting)
  }

  /** The exclusive fences of a patch: the global one, then trading fences, then voting fences, each sorted. */
  function PatchFences(patch: seq<Change>): seq<Lock> {
    FencesOver(Touches(patch, TradingPaused), SortDedup(TradingMarkets(patch)), SortDedup(VotingMarkets(patch)))
  }

  /** The locks a transaction asks for, in the order it asks; a resolution goes on once it has listed its users. */
  function Requests(command: Command, listed: Option<seq<nat>>): seq<Lock> {
    match command
    case Trade(key, user, market, _) =>
      [KeyLock(key), UserLock(user), MarketLock(market), GlobalFence, TradingFence(market)]
    case Vote(key, user, market, _) => [KeyLock(key), UserLock(user), MarketLock(market), VotingFence(market)]
    case Admission(key, owner) => [KeyLock(key)] + if owner.Some? then [UserLock(owner.value)] else []
    case Bind(key, pair, referrer, referee) =>
      [KeyLock(key), PairLock(pair), RefereeLock(referee)] + UserLocks(SortDedup([referrer, referee]))
    case Resolution(key, market) =>
      [KeyLock(key)] + if listed.None? then [] else UserLocks(SortDedup(listed.value)) + [MarketLock(market)]
    case Configure(proposal, patch) =>
      (if proposal.Some? then [ProposalLock(proposal.value)] else []) + PatchFences(patch) + [GenerationLock]
  }

  lemma UserLocksAscend(users: seq<nat>)
    requires StrictlySorted(users)
    ensures Ascending(UserLocks(users))
  {
  }

  predicate WithinClasses(locks: seq<Lock>, low: nat, high: nat) {
    forall i :: 0 <= i < |locks| ==> low <= locks[i].Class() <= high
  }

  lemma AscendingAppend(left: seq<Lock>, right: seq<Lock>, low: nat, mid: nat, high: nat)
    requires Ascending(left) && Ascending(right) && low <= mid < high
    requires WithinClasses(left, low, mid) && WithinClasses(right, mid + 1, high)
    ensures Ascending(left + right) && WithinClasses(left + right, low, high)
  {
  }

  lemma FencesAscend(global: bool, trading: seq<nat>, voting: seq<nat>)
    requires StrictlySorted(trading) && StrictlySorted(voting)
    ensures Ascending(FencesOver(global, trading, voting)) && WithinClasses(FencesOver(global, trading, voting), 7, 9)
  {
    var first := if global then [GlobalFence] else [];
    assert Ascending(TradingFences(trading)) && Ascending(VotingFences(voting));
    AscendingAppend(first, TradingFences(trading), 7, 7, 8);
    AscendingAppend(first + TradingFences(trading), VotingFences(voting), 7, 8, 9);
  }

  lemma ConfigureAscends(proposal: Option<nat>, fences: seq<Lock>)
    requires Ascending(fences) && WithinClasses(fences, 7, 9)
    ensures Ascending((if proposal.Some? then [ProposalLock(proposal.value)] else []) + fences + [GenerationLock])
  {
    var first := if proposal.Some? then [ProposalLock(proposal.value)] else [];
    AscendingAppend(first, fences, 6, 6, 9);
    AscendingAppend(first + fences, [GenerationLock], 6, 9, 10);
  }

  lemma ResolutionAscends(key: nat, market: nat, listed: seq<nat>)
    ensures Ascending(Requests(Resolution(key, market), Some(listed)))
  {
    var users := UserLocks(SortDedup(listed));
    UserLocksAscend(SortDedup(listed));
    AscendingAppend(users, [MarketLock(market)], 4, 4, 5);
    AscendingAppend([KeyLock(key)], users + [MarketLock(market)], 1, 1, 5);
    assert [KeyLock(key)] + (users + [MarketLock(market)]) == Requests(Resolution(key, market), Some(listed));
  }

  /** Every command asks in strictly ascending order. */
  lemma CommandsAscend(command: Command, listed: Option<seq<nat>>)
    ensures Ascending(Requests(command, listed))
  {
    match command
    case Bind(key, pair, referrer, referee) =>
      var users := SortDedup([referrer, referee]);
      UserLocksAscend(users);
      AscendingAppend([KeyLock(key), PairLock(pair), RefereeLock(referee)], UserLocks(users), 1, 3, 4);
    case Resolution(key, market) => if listed.Some? { ResolutionAscends(key, market, listed.value); }
    case Configure(proposal, patch) =>
      FencesAscend(Touches(patch, TradingPaused), SortDedup(TradingMarkets(patch)), SortDedup(VotingMarkets(patch)));
      ConfigureAscends(proposal, PatchFences(patch));
    case _ =>
  }

  /** One of the first `n` requests. */
  predicate Among(locks: seq<Lock>, n: nat, l: Lock) { exists i :: 0 <= i < n && i < |locks| && locks[i] == l }

  predicate Holds(x: Txn, l: Lock) { Among(Requests(x.command, x.listed), x.held, l) }

  predicate Waiting(x: Txn) { x.held < |Requests(x.command, x.listed)| }

  function Wants(x: Txn): Lock
    requires Waiting(x)
  {
    Requests(x.command, x.listed)[x.held]
  }

  lemma AmongNext(locks: seq<Lock>, n: nat, l: Lock)
    requires n < |locks|
    ensures Among(locks, n + 1, l) <==> Among(locks, n, l) || l == locks[n]
  {
    if Among(locks, n, l) {
      var i :| 0 <= i < n && i < |locks| && locks[i] == l;
      assert i < n + 1;
    }
  }

  // ---------------------------------------------------------------- who takes part in a market

  /** Votes, trades and open positions as (market, user), who referred whom, by referee, and the pauses' history. */
  datatype Db =
    Db(voters: set<(nat, nat)>, traders: set<(nat, nat)>, holders: set<(nat, nat)>, binds: map<nat, nat>,
       history: seq<Change>)

  function UsersOf(pairs: set<(nat, nat)>, market: nat): (users: set<nat>)
    ensures forall u :: u in users <==> (market, u) in pairs
  {
    var users := set p | p in pairs && p.0 == market :: p.1;
    assert forall u :: (market, u) in pairs ==> (market, u).1 in users;
    users
  }

  /** Both parties of every bind whose referee has traded in the market. */
  function Referred(db: Db, market: nat): set<nat> {
    (set e | e in db.binds && (market, e) in db.traders)
    + (set e | e in db.binds && (market, e) in db.traders :: db.binds[e])
  }

  function Participants(db: Db, market: nat): set<nat> {
    UsersOf(db.voters, market) + UsersOf(db.holders, market) + Referred(db, market)
  }

  /** Only voters trade, and only traders hold. */
  predicate Gated(db: Db) { db.holders <= db.traders <= db.voters }

  // ---------------------------------------------------------------- steps

  datatype System = System(table: map<nat, Txn>, db: Db)

  datatype Step =
    | Begin(t: nat, command: Command)
    | Grant(t: nat)
    | Enumerate(t: nat, listing: seq<nat>)
    | Recheck(t: nat)
    | CheckPauses(t: nat)
    | Commit(t: nat)
    | Abort(t: nat)

  /** Nobody holds the lock in a way that keeps the command from it. */
  predicate Free(table: map<nat, Txn>, command: Command, l: Lock) {
    forall t :: t in table.Keys && Holds(table[t], l) ==> Compatible(table[t].command, command, l)
  }

  predicate CanGrant(table: map<nat, Txn>, t: nat) {
    t in table && Waiting(table[t]) && Free(table, table[t].command, Wants(table[t]))
  }

  function SetOf(s: seq<nat>): set<nat> { set u | u in s }

  /** Listing happens with the key held and before any user is locked. */
  predicate CanList(x: Txn) { x.command.Resolution? && x.listed.None? && x.held == 1 }

  /** Rechecking happens with every lock held. */
  predicate CanRecheck(x: Txn) { x.command.Resolution? && x.listed.Some? && !Waiting(x) && !x.passed }

  /** The switches are read with every lock held, fences included. */
  predicate CanCheck(x: Txn) { (x.command.Trade? || x.command.Vote?) && !Waiting(x) && x.checked.None? }

  /** No pause stands against the command; once the tally is hidden, a vote goes on through a pause. */
  predicate Clear(history: seq<Change>, command: Command) {
    match command
    case Trade(_, _, m, _) =>
      !InForce(history, TradingPaused) && !InForce(history, MarketPaused(m)) && !InForce(history, VotingPaused(m))
    case Vote(_, _, m, hidden) => hidden || !InForce(history, VotingPaused(m))
    case _ => true
  }

  /** A command writes with every lock held; a resolution only after its recheck, a trade or vote after its reads. */
  predicate CanCommit(x: Txn) {
    && !Waiting(x) && (x.command.Resolution? ==> x.passed)
    && (x.command.Trade? || x.command.Vote? ==> x.checked.Some?)
  }

  /** What a commit writes: a vote, a gated trade, a first bind, a closed book, or changed switches. */
  function Written(db: Db, command: Command): Db {
    match command
    case Vote(_, u, m, _) => db.(voters := db.voters + {(m, u)})
    case Trade(_, u, m, holdsAfter) =>
      if (m, u) !in db.voters then db
      else db.(traders := db.traders + {(m, u)},
               holders := if holdsAfter then db.holders + {(m, u)} else db.holders - {(m, u)})
    case Bind(_, _, referrer, referee) =>
      if referrer == referee || referee in db.binds then db else db.(binds := db.binds[referee := referrer])
    case Resolution(_, m) => db.(holders := set p | p in db.holders && p.0 != m)
    case Admission(_, _) => db
    case Configure(_, patch) => db.(history := db.history + patch)
  }

  function Perform(sys: System, step: Step): System {
    match step
    case Begin(t, command) =>
      if t in sys.table then sys else sys.(table := sys.table[t := Txn(command, None, 0, false, None)])
    case Grant(t) =>
      if CanGrant(sys.table, t)
      then sys.(table := sys.table[t := sys.table[t].(held := sys.table[t].held + 1)]) else sys
    case Enumerate(t, listing) =>
      if t in sys.table && CanList(sys.table[t]) && SetOf(listing) == Participants(sys.db, sys.table[t].command.market)
      then sys.(table := sys.table[t := sys.table[t].(listed := Some(listing))]) else sys
    case Recheck(t) =>
      if t !in sys.table || !CanRecheck(sys.table[t]) then sys
      else if Participants(sys.db, sys.table[t].command.market) <= SetOf(sys.table[t].listed.value)
      then sys.(table := sys.table[t := sys.table[t].(passed := true)])
      else sys.(table := sys.table - {t})
    case CheckPauses(t) =>
      if t !in sys.table || !CanCheck(sys.table[t]) then sys
      else if Clear(sys.db.history, sys.table[t].command)
      then sys.(table := sys.table[t := sys.table[t].(checked := Some(|sys.db.history|))])
      else sys.(table := sys.table - {t})
    case Commit(t) =>
      if t in sys.table && CanCommit(sys.table[t])
      then System(sys.table - {t}, Written(sys.db, sys.table[t].command)) else sys
    case Abort(t) => sys.(table := sys.table - {t})
  }

  // ---------------------------------------------------------------- one holder per lock, unless it is shared

  ghost predicate Exclusive(table: map<nat, Txn>) {
    forall s, t, l :: s in table && t in table && s != t && Holds(table[s], l) && Holds(table[t], l) ==>
      Compatible(table[s].command, table[t].command, l)
  }

  lemma GrantStaysExclusive(table: map<nat, Txn>, t: nat)
    requires Exclusive(table) && CanGrant(table, t)
    ensures Exclusive(table[t := table[t].(held := table[t].held + 1)])
  {
    var x := table[t];
    forall l ensures Holds(x.(held := x.held + 1), l) <==> Holds(x, l) || l == Wants(x) {
      AmongNext(Requests(x.command, x.listed), x.held, l);
    }
  }

  /** Listing the users does not change what is held. */
  lemma ListingHoldsTheSame(x: Txn, listing: seq<nat>, l: Lock)
    requires CanList(x)
    ensures Holds(x.(listed := Some(listing)), l) <==> Holds(x, l)
  {
    var before, after := Requests(x.command, None), Requests(x.command, Some(listing));
    assert before[0] == KeyLock(x.command.key) && after[0] == KeyLock(x.command.key);
  }

  lemma SameHolds(table: map<nat, Txn>, t: nat, x: Txn)
    requires Exclusive(table) && t in table && x.command == table[t].command
    requires forall l :: Holds(x, l) ==> Holds(table[t], l)
    ensures Exclusive(table[t := x])
  {
  }

  lemma ListingStaysExclusive(table: map<nat, Txn>, t: nat, listing: seq<nat>)
    requires Exclusive(table) && t in table && CanList(table[t])
    ensures Exclusive(table[t := table[t].(listed := Some(listing))])
  {
    forall l ensures Holds(table[t].(listed := Some(listing)), l) <==> Holds(table[t], l) {
      ListingHoldsTheSame(table[t], listing, l);
    }
    SameHolds(table, t, table[t].(listed := Some(listing)));
  }

  lemma FewerStayExclusive(table: map<nat, Txn>, t: nat)
    requires Exclusive(table)
    ensures Exclusive(table - {t})
  {
  }

  lemma NewStaysExclusive(table: map<nat, Txn>, t: nat, command: Command)
    requires Exclusive(table) && t !in table
    ensures Exclusive(table[t := Txn(command, None, 0, false, None)])
  {
  }

  lemma GrantStepStaysExclusive(sys: System, t: nat)
    requires Exclusive(sys.table)
    ensures Exclusive(Perform(sys, Grant(t)).table)
  {
    if CanGrant(sys.table, t) { GrantStaysExclusive(sys.table, t); }
  }

  lemma ListingStepStaysExclusive(sys: System, t: nat, listing: seq<nat>)
    requires Exclusive(sys.table)
    ensures Exclusive(Perform(sys, Enumerate(t, listing)).table)
  {
    if t in sys.table && CanList(sys.table[t]) { ListingStaysExclusive(sys.table, t, listing); }
  }

  /** Passing a check holds nothing more; failing it, committing and aborting let everything go. */
  lemma CheckStepStaysExclusive(sys: System, step: Step)
    requires Exclusive(sys.table) && (step.Recheck? || step.CheckPauses? || step.Commit? || step.Abort?)
    ensures Exclusive(Perform(sys, step).table)
  {
    FewerStayExclusive(sys.table, step.t);
    if step.t in sys.table {
      SameHolds(sys.table, step.t, sys.table[step.t].(passed := true));
      SameHolds(sys.table, step.t, sys.table[step.t].(checked := Some(|sys.db.history|)));
    }
  }

  lemma StepStaysExclusive(sys: System, step: Step)
    requires Exclusive(sys.table)
    ensures Exclusive(Perform(sys, step).table)
  {
    match step
    case Begin(t, command) => if t !in sys.table { NewStaysExclusive(sys.table, t, command); }
    case Grant(t) => GrantStepStaysExclusive(sys, t);
    case Enumerate(t, listing) => ListingStepStaysExclusive(sys, t, listing);
    case _ => CheckStepStaysExclusive(sys, step);
  }

  // ---------------------------------------------------------------- nobody is missed

  /** A passed recheck still covers everyone who takes part. */
  ghost predicate Covers(x: Txn, db: Db) {
    x.passed ==>
      && x.command.Resolution? && x.listed.Some? && !Waiting(x)
      && Participants(db, x.command.market) <= SetOf(x.listed.value)
  }

  ghost predicate AllCover(sys: System) { forall t :: t in sys.table ==> Covers(sys.table[t], sys.db) }

  ghost predicate Inv(sys: System) { Exclusive(sys.table) && Gated(sys.db) && AllCover(sys) }

  lemma PassedHoldsAll(x: Txn, db: Db)
    requires x.passed && Covers(x, db)
    ensures Holds(x, MarketLock(x.command.market))
    ensures forall u :: u in Participants(db, x.command.market) ==> Holds(x, UserLock(u))
  {
    var users := SortDedup(x.listed.value);
    var locks := Requests(x.command, x.listed);
    assert locks[|locks| - 1] == MarketLock(x.command.market);
    forall u | u in Participants(db, x.command.market) ensures Holds(x, UserLock(u)) {
      var i :| 0 <= i < |users| && users[i] == u;
      assert locks[i + 1] == UserLock(u);
    }
  }

  lemma WriterHolds(x: Txn)
    requires !Waiting(x)
    ensures x.command.Trade? || x.command.Vote? ==> Holds(x, MarketLock(x.command.market))
    ensures x.command.Bind? ==> Holds(x, UserLock(x.command.referee))
  {
    var locks := Requests(x.command, x.listed);
    if x.command.Trade? || x.command.Vote? { assert locks[2] == MarketLock(x.command.market); }
    if x.command.Bind? {
      var users := SortDedup([x.command.referrer, x.command.referee]);
      assert x.command.referee in [x.command.referrer, x.command.referee];
      var i :| 0 <= i < |users| && users[i] == x.command.referee;
      assert locks[i + 3] == UserLock(x.command.referee);
    }
  }

  /** A vote or trade elsewhere, or a bind of someone who never traded here, brings no one in. */
  lemma NobodyComesIn(db: Db, command: Command, market: nat)
    requires Gated(db)
    requires (command.Trade? || command.Vote?) ==> command.market != market
    requires command.Bind? ==> command.referee !in Participants(db, market)
    ensures Participants(Written(db, command), market) <= Participants(db, market)
  {
  }

  lemma CommitKeepsCover(sys: System, t: nat, s: nat)
    requires Inv(sys) && t in sys.table && CanCommit(sys.table[t]) && s in sys.table && s != t
    ensures Covers(sys.table[s], Written(sys.db, sys.table[t].command))
  {
    var x, y := sys.table[t], sys.table[s];
    if y.passed {
      PassedHoldsAll(y, sys.db);
      WriterHolds(x);
      NobodyComesIn(sys.db, x.command, y.command.market);
    }
  }

  lemma CommitKeepsInv(sys: System, t: nat)
    requires Inv(sys) && t in sys.table && CanCommit(sys.table[t])
    ensures Inv(Perform(sys, Commit(t)))
  {
    StepStaysExclusive(sys, Commit(t));
    forall s | s in sys.table && s != t ensures Covers(sys.table[s], Written(sys.db, sys.table[t].command)) {
      CommitKeepsCover(sys, t, s);
    }
  }

  lemma StepKeepsInv(sys: System, step: Step)
    requires Inv(sys)
    ensures Inv(Perform(sys, step))
  {
    if step.Commit? && step.t in sys.table && CanCommit(sys.table[step.t]) {
      CommitKeepsInv(sys, step.t);
    } else {
      StepStaysExclusive(sys, step);
    }
  }

  // ---------------------------------------------------------------- every run

  const EMPTY: System := System(map[], Db({}, {}, {}, map[], []))

  function Run(sys: System, steps: seq<Step>): System {
    if steps == [] then sys else Perform(Run(sys, steps[..|steps| - 1]), steps[|steps| - 1])
  }

  lemma {:induction false} RunKeepsInv(sys: System, steps: seq<Step>)
    requires Inv(sys)
    ensures Inv(Run(sys, steps))
    decreases |steps|
  {
    if steps != [] {
      RunKeepsInv(sys, steps[..|steps| - 1]);
      StepKeepsInv(Run(sys, steps[..|steps| - 1]), steps[|steps| - 1]);
    }
  }

  /**
   From a passed recheck until it ends, and whatever else runs, a resolution
   holds its market and the lock of every voter, holder and referral party that
   takes part in the market now.
   */
  lemma ResolutionHoldsEveryone(steps: seq<Step>, t: nat)
    requires t in Run(EMPTY, steps).table && Run(EMPTY, steps).table[t].passed
    ensures var sys := Run(EMPTY, steps);
            var x := sys.table[t];
            && x.command.Resolution? && Holds(x, MarketLock(x.command.market))
            && forall u :: u in Participants(sys.db, x.command.market) ==> Holds(x, UserLock(u))
  {
    RunKeepsInv(EMPTY, steps);
    PassedHoldsAll(Run(EMPTY, steps).table[t], Run(EMPTY, steps).db);
  }

  /** A transaction gets its next lock exactly when no one holds it against it. */
  lemma GrantIsExact(sys: System, t: nat)
    requires t in sys.table
    ensures Perform(sys, Grant(t)).table[t].held > sys.table[t].held
       <==> && Waiting(sys.table[t])
            && forall s :: s in sys.table && Holds(sys.table[s], Wants(sys.table[t])) ==>
                 Shares(sys.table[s].command, Wants(sys.table[t])) && Shares(sys.table[t].command, Wants(sys.table[t]))
  {
  }

  /** Trades and votes with different keys, users and markets never keep each other from a lock. */
  lemma StrangersDoNotBlock(x: Txn, y: Txn)
    requires (x.command.Trade? || x.command.Vote?) && (y.command.Trade? || y.command.Vote?) && Waiting(y)
    requires x.command.key != y.command.key && x.command.user != y.command.user && x.command.market != y.command.market
    ensures Holds(x, Wants(y)) ==> Compatible(x.command, y.command, Wants(y))
  {
  }

  lemma NamesAll(users: set<nat>, listing: seq<nat>)
    ensures users <= SetOf(listing) <==> forall u :: u in users ==> u in listing
    ensures SetOf(listing) == users <==> forall u :: u in users <==> u in listing
  {
    assert forall u :: u in SetOf(listing) <==> u in listing;
  }

  /** A listing is taken exactly if it names who takes part, no one else, and no one is left out. */
  lemma ListingIsExact(sys: System, t: nat, listing: seq<nat>)
    requires t in sys.table && CanList(sys.table[t])
    ensures var x := sys.table[t];
            Perform(sys, Enumerate(t, listing)).table[t]
            == if forall u :: u in Participants(sys.db, x.command.market) <==> u in listing
               then x.(listed := Some(listing)) else x
  {
    NamesAll(Participants(sys.db, sys.table[t].command.market), listing);
  }

  /** A recheck passes exactly if everyone who takes part by then was listed; otherwise the transaction is dropped. */
  lemma RecheckIsExact(sys: System, t: nat)
    requires t in sys.table && CanRecheck(sys.table[t])
    ensures var x, after := sys.table[t], Perform(sys, Recheck(t)).table;
            if forall u :: u in Participants(sys.db, x.command.market) ==> u in x.listed.value
            then t in after && after[t] == x.(passed := true)
            else t !in after
  {
    NamesAll(Participants(sys.db, sys.table[t].command.market), sys.table[t].listed.value);
  }

  /** Whoever votes, trades after voting, or binds takes part from then on; a resolution leaves no holder behind. */
  lemma WritersTakePart(db: Db, command: Command)
    ensures var after := Written(db, command);
            match command
            case Vote(_, u, m, _) => u in UsersOf(after.voters, m) && db.voters <= after.voters
            case Trade(_, u, m, holdsAfter) =>
              (m, u) in db.voters ==> (m, u) in after.traders && ((m, u) in after.holders <==> holdsAfter)
            case Bind(_, _, referrer, referee) =>
              && (referrer != referee && referee !in db.binds ==> after.binds == db.binds[referee := referrer])
              && (referee in db.binds ==> after.binds == db.binds)
            case Resolution(_, m) => UsersOf(after.holders, m) == {}
            case Configure(_, patch) => after == db.(history := db.history + patch)
            case Admission(_, _) => after == db
  {
  }

  /** What a command writes about: its key, its users, its market, its pair, or the configuration. */
  function Subjects(command: Command): set<Lock> {
    match command
    case Trade(key, user, market, _) => {KeyLock(key), UserLock(user), MarketLock(market)}
    case Vote(key, user, market, _) => {KeyLock(key), UserLock(user), MarketLock(market)}
    case Admission(key, owner) => {KeyLock(key)} + if owner.Some? then {UserLock(owner.value)} else {}
    case Bind(key, pair, referrer, referee) =>
      {KeyLock(key), PairLock(pair), RefereeLock(referee), UserLock(referrer), UserLock(referee)}
    case Resolution(key, market) => {KeyLock(key), MarketLock(market)}
    case Configure(proposal, _) => {GenerationLock} + if proposal.Some? then {ProposalLock(proposal.value)} else {}
  }

  lemma WriterHoldsSubjects(x: Txn, l: Lock)
    requires !Waiting(x) && (x.command.Resolution? ==> x.listed.Some?) && l in Subjects(x.command)
    ensures Holds(x, l)
  {
    var locks := Requests(x.command, x.listed);
    assert exists i :: 0 <= i < |locks| && locks[i] == l by { SubjectsAreRequested(x.command, x.listed, l); }
  }

  lemma SubjectsAreRequested(command: Command, listed: Option<seq<nat>>, l: Lock)
    requires l in Subjects(command) && (command.Resolution? ==> listed.Some?)
    ensures l in Requests(command, listed)
  {
    var locks := Requests(command, listed);
    match command
    case Trade(_, _, _, _) => assert l == locks[0] || l == locks[1] || l == locks[2];
    case Vote(_, _, _, _) => assert l == locks[0] || l == locks[1] || l == locks[2];
    case Admission(_, _) => assert l == locks[0] || l == locks[1];
    case Bind(key, pair, referrer, referee) =>
      if l.UserLock? { UserIsRequested([referrer, referee], l.user); }
      assert l.UserLock? || l == locks[0] || l == locks[1] || l == locks[2];
    case Resolution(_, _) => assert l == locks[0] || l == locks[|locks| - 1];
    case Configure(proposal, _) => assert l == locks[0] || l == locks[|locks| - 1];
  }

  lemma UserIsRequested(users: seq<nat>, u: nat)
    requires u in users
    ensures UserLock(u) in UserLocks(SortDedup(users))
  {
    var i :| 0 <= i < |SortDedup(users)| && SortDedup(users)[i] == u;
    assert UserLocks(SortDedup(users))[i] == UserLock(u);
  }

  /** In every run two transactions that may both write never write about the same thing. */
  lemma NoTwoWriters(steps: seq<Step>, s: nat, t: nat)
    requires var table := Run(EMPTY, steps).table;
             s in table && t in table && s != t && CanCommit(table[s]) && CanCommit(table[t])
    ensures var table := Run(EMPTY, steps).table; Subjects(table[s].command) !! Subjects(table[t].command)
  {
    RunKeepsInv(EMPTY, steps);
    var table := Run(EMPTY, steps).table;
    forall l | l in Subjects(table[s].command) && l in Subjects(table[t].command) ensures false {
      assert Covers(table[s], Run(EMPTY, steps).db) && Covers(table[t], Run(EMPTY, steps).db);
      WriterHoldsSubjects(table[s], l);
      WriterHoldsSubjects(table[t], l);
    }
  }

  /** The two want the same lock, cannot share it, and `s` asked first. */
  predicate Ahead(table: map<nat, Txn>, turn: nat -> nat, s: nat, t: nat)
    requires s in table && t in table && Waiting(table[s]) && Waiting(table[t])
  {
    && Wants(table[s]) == Wants(table[t]) && turn(s) < turn(t)
    && !Compatible(table[s].command, table[t].command, Wants(table[t]))
  }

  /** Of any waiting transactions, one wants a highest lock, and first among those. */
  lemma {:induction false} HighestWant(table: map<nat, Txn>, turn: nat -> nat, waiting: set<nat>) returns (t: nat)
    requires waiting != {} && waiting <= table.Keys && forall s :: s in waiting ==> Waiting(table[s])
    ensures t in waiting
    ensures forall s :: s in waiting ==>
      !Below(Wants(table[t]), Wants(table[s])) && (Wants(table[s]) == Wants(table[t]) ==> turn(t) <= turn(s))
    decreases waiting
  {
    t :| t in waiting;
    if waiting != {t} {
      var rest := HighestWant(table, turn, waiting - {t});
      var mine, other := Wants(table[t]), Wants(table[rest]);
      SameOrBelow(mine, other);
      if Below(mine, other) || (mine == other && turn(rest) < turn(t)) { t := rest; }
    }
  }

  lemma SameOrBelow(a: Lock, b: Lock)
    ensures a == b || Below(a, b) || Below(b, a)
  {
  }

  /** A waiting transaction wants a lock above every lock it holds. */
  lemma WantsAbove(x: Txn, l: Lock)
    requires Waiting(x)
    ensures Holds(x, l) ==> Below(l, Wants(x))
  {
    CommandsAscend(x.command, x.listed);
    BelowNext(Requests(x.command, x.listed), x.held, l);
  }

  lemma BelowNext(locks: seq<Lock>, n: nat, l: Lock)
    requires Ascending(locks) && n < |locks|
    ensures Among(locks, n, l) ==> Below(l, locks[n])
  {
  }

  /** Someone within the set holds the lock, or asked for it first. */
  ghost predicate Blocked(table: map<nat, Txn>, turn: nat -> nat, t: nat, within: set<nat>)
    requires t in table && Waiting(table[t])
  {
    exists s :: s in within && s in table && s != t
      && ((Holds(table[s], Wants(table[t])) && !Compatible(table[s].command, table[t].command, Wants(table[t])))
          || (Waiting(table[s]) && Ahead(table, turn, s, t)))
  }

  lemma NotAllBlocked(table: map<nat, Txn>, turn: nat -> nat, stuck: set<nat>) returns (t: nat)
    requires stuck != {} && stuck <= table.Keys && forall s :: s in stuck ==> Waiting(table[s])
    ensures t in stuck && !Blocked(table, turn, t, stuck)
    ensures forall s :: s in stuck ==> !Holds(table[s], Wants(table[t]))
  {
    t := HighestWant(table, turn, stuck);
    forall s | s in stuck ensures !Holds(table[s], Wants(table[t])) { WantsAbove(table[s], Wants(table[t])); }
  }

  /**
   Whatever commands run, and in whatever order waiting transactions are
   served, no set of them waits only on itself: one of them wants a lock that
   nobody in the set holds against it or asked for before it.
   */
  lemma NeverDeadlocked(steps: seq<Step>, turn: nat -> nat, stuck: set<nat>)
    requires stuck != {} && stuck <= Run(EMPTY, steps).table.Keys
    requires forall t :: t in stuck ==> Waiting(Run(EMPTY, steps).table[t])
    ensures exists t :: t in stuck && !Blocked(Run(EMPTY, steps).table, turn, t, stuck)
  {
    var t := NotAllBlocked(Run(EMPTY, steps).table, turn, stuck);
  }

  /** While anyone is at work, someone can be granted a lock or is not waiting for one. */
  lemma SomeoneCanMove(steps: seq<Step>) returns (t: nat)
    requires Run(EMPTY, steps).table != map[]
    ensures var table := Run(EMPTY, steps).table;
            t in table && (!Waiting(table[t]) || Free(table, table[t].command, Wants(table[t])))
  {
    t := SomeoneCanMoveIn(Run(EMPTY, steps).table);
  }

  lemma SomeoneCanMoveIn(table: map<nat, Txn>) returns (t: nat)
    requires table != map[]
    ensures t in table && (!Waiting(table[t]) || Free(table, table[t].command, Wants(table[t])))
  {
    if s :| s in table && !Waiting(table[s]) {
      t := s;
    } else {
      t := NotAllBlocked(table, _ => 0, table.Keys);
    }
  }
}
