/**
 Clock-driven advances of one market by any number of runners. Every advance
 carries an idempotency key; a recorded key replays instead of moving again.
 */
module Cascade {
  import opened Money
  import opened Lifecycle

  /** The key namespaces: the scheduler's, the admin route's, and the two that resolution writes. */
  datatype Key = Sched(event: MarketEvent) | Admin(event: MarketEvent) | CuratorKey | HoldKey

  datatype Recorded = Recorded(event: MarketEvent, resulting: MarketState)

  datatype Row = Row(state: MarketState, commands: map<Key, Recorded>, flagged: bool)

  predicate ProperKey(key: Key, event: MarketEvent) {
    match key
    case Sched(e) => e == event
    case Admin(e) => e == event
    case _ => event == StartIntegritySweep
  }

  datatype Reply = Moved(from: MarketState, to: MarketState) | Replayed(from: MarketState, to: MarketState) | Refused

  /** The keyed transition: whitelist, replay, then the table. */
  function AdvanceNext(row: Row, key: Key, event: MarketEvent): (Row, Reply) {
    if !event.IsNonFinancial() then (row, Refused)
    else if key in row.commands then
      (row, Replayed(SourceState(row.commands[key].event), row.commands[key].resulting))
    else
      var to := Transition(row.state, event);
      if to.None? then (row, Refused)
      else (row.(state := to.value, commands := row.commands[key := Recorded(event, to.value)]),
            Moved(row.state, to.value))
  }

  /** What other parties do to the row: keyed advances, flags, holds, payouts and voids. */
  datatype Other =
    | OtherAdvance(key: Key, event: MarketEvent)
    | FlagCurator
    | HoldForReview
    | PayOut(voided: bool)
    | VoidMarket

  function Swept(row: Row, key: Key): Row {
    row.(state := Resolving, commands := row.commands[key := Recorded(StartIntegritySweep, Resolving)])
  }

  function OtherNext(row: Row, other: Other): Row {
    match other
    case OtherAdvance(key, event) => if ProperKey(key, event) then AdvanceNext(row, key, event).0 else row
    case FlagCurator =>
      if row.state.Closed? then Swept(row, CuratorKey).(flagged := true)
      else if row.state.Resolving? then row.(flagged := true)
      else row
    case HoldForReview => if row.state.Closed? then Swept(row, HoldKey) else row
    case PayOut(voided) =>
      if row.state.Closed? || row.state.Resolving? then row.(state := if voided then Voided else Paid) else row
    case VoidMarket =>
      if Transition(row.state, VoidByAdmin).Some? then row.(state := Voided) else row
  }

  function OthersRun(row: Row, others: seq<Other>): Row {
    if others == [] then row else OtherNext(OthersRun(row, others[..|others| - 1]), others[|others| - 1])
  }

  // ---------------------------------------------------------------- a recorded key is behind us

  predicate RecordedBehind(state: MarketState, key: Key, recorded: Recorded) {
    && ProperKey(key, recorded.event) && recorded.event.IsNonFinancial()
    && Transition(SourceState(recorded.event), recorded.event) == Some(recorded.resulting)
    && Rank(state) >= Rank(recorded.resulting) > Rank(SourceState(recorded.event))
  }

  /** Every recorded command's source state has been left for good. */
  predicate KeysBehind(row: Row) {
    forall key :: key in row.commands ==> RecordedBehind(row.state, key, row.commands[key])
  }

  lemma AdvanceKeeps(row: Row, key: Key, event: MarketEvent)
    requires KeysBehind(row) && ProperKey(key, event)
    ensures var (row', reply) := AdvanceNext(row, key, event);
            && KeysBehind(row') && Rank(row'.state) >= Rank(row.state)
            && (!reply.Refused? ==>
                  Rank(row'.state) > Rank(SourceState(event)) && Transition(reply.from, event) == Some(reply.to))
  {
    EdgesClimb(row.state, event);
    if key in row.commands {
      assert RecordedBehind(row.state, key, row.commands[key]);
    } else if event.IsNonFinancial() && Transition(row.state, event).Some? {
      var row' := AdvanceNext(row, key, event).0;
      forall k | k in row'.commands ensures RecordedBehind(row'.state, k, row'.commands[k]) {
        if k != key { assert RecordedBehind(row.state, k, row.commands[k]); }
      }
    }
  }

  /** An advance moves exactly a fresh key's event in its source state; a used key only reports. */
  lemma AdvanceIsExact(row: Row, key: Key, event: MarketEvent)
    ensures var (row', reply) := AdvanceNext(row, key, event);
            && (reply.Moved? <==> event.IsNonFinancial() && key !in row.commands && row.state == SourceState(event))
            && (reply.Replayed? <==> event.IsNonFinancial() && key in row.commands)
            && (reply.Moved? ==>
                  && Rank(row'.state) == Rank(row.state) + 1 && reply == Moved(row.state, row'.state)
                  && row' == Row(row'.state, row.commands[key := Recorded(event, row'.state)], row.flagged))
            && (reply.Replayed? ==>
                  reply == Replayed(SourceState(row.commands[key].event), row.commands[key].resulting))
            && (!reply.Moved? ==> row' == row)
  {
    TableIsExact(row.state, event);
  }

  lemma RaisedKeeps(row: Row, row': Row)
    requires KeysBehind(row) && row'.commands == row.commands && Rank(row'.state) >= Rank(row.state)
    ensures KeysBehind(row')
  {
    forall k | k in row'.commands ensures RecordedBehind(row'.state, k, row'.commands[k]) {
      assert RecordedBehind(row.state, k, row.commands[k]);
    }
  }

  lemma OtherKeeps(row: Row, other: Other)
    requires KeysBehind(row)
    ensures KeysBehind(OtherNext(row, other)) && Rank(OtherNext(row, other).state) >= Rank(row.state)
  {
    var row' := OtherNext(row, other);
    match other
    case OtherAdvance(key, event) => if ProperKey(key, event) { AdvanceKeeps(row, key, event); }
    case FlagCurator => SweptKeeps(row, row', CuratorKey);
    case HoldForReview => SweptKeeps(row, row', HoldKey);
    case PayOut(_) => RaisedKeeps(row, row');
    case VoidMarket => RaisedKeeps(row, row');
  }

  lemma SweptKeeps(row: Row, row': Row, key: Key)
    requires KeysBehind(row) && ProperKey(key, StartIntegritySweep)
    requires || (row'.state == row.state && row'.commands == row.commands)
             || (row.state.Closed? && row'.state == Resolving && row'.commands == Swept(row, key).commands)
    ensures KeysBehind(row')
  {
    forall k | k in row'.commands ensures RecordedBehind(row'.state, k, row'.commands[k]) {
      if k in row.commands { assert RecordedBehind(row.state, k, row.commands[k]); }
    }
  }

  lemma {:induction false} OthersKeep(row: Row, others: seq<Other>)
    requires KeysBehind(row)
    ensures KeysBehind(OthersRun(row, others)) && Rank(OthersRun(row, others).state) >= Rank(row.state)
    decreases |others|
  {
    if others != [] {
      OthersKeep(row, others[..|others| - 1]);
      OtherKeeps(OthersRun(row, others[..|others| - 1]), others[|others| - 1]);
    }
  }

  /**
   If a scheduler key were recorded for a market still in the event's source
   state, a turn would replay forever: the cascade needs the keys to be behind.
   */
  lemma KeyAheadMakesNoProgress(row: Row, event: MarketEvent)
    requires event.IsNonFinancial() && row.state == SourceState(event)
    ensures AdvanceNext(row, Sched(event), event).0.state == row.state <==> Sched(event) in row.commands
  {
    EdgesClimb(row.state, event);
  }

  // ---------------------------------------------------------------- the cascade

  datatype Times = Times(opensAt: int, hiddenAt: int, closesAt: int)

  /** The clock-driven event due for a market read in `state`. */
  function DueEvent(state: MarketState, times: Times, now: int): (event: Option<MarketEvent>)
    ensures event.Some? ==> event.value.IsNonFinancial() && state == SourceState(event.value) && Rank(state) <= 3
  {
    match state
    case Scheduled => if now >= times.opensAt then Some(GoLive) else None
    case Live => if now >= times.hiddenAt then Some(EnterCloseWindow) else None
    case Closing => if now >= times.closesAt then Some(Close) else None
    case _ => None
  }

  /** The boundary that ends a state, if the clock does. */
  function Boundary(state: MarketState, times: Times): Option<int> {
    if Rank(state) == 1 then Some(times.opensAt)
    else if Rank(state) == 2 then Some(times.hiddenAt)
    else if Rank(state) == 3 then Some(times.closesAt)
    else None
  }

  /** An event is due exactly from its state's boundary on, that moment included. */
  lemma DueIsExact(state: MarketState, times: Times, now: int)
    ensures DueEvent(state, times, now).Some?
       <==> Boundary(state, times).Some? && now >= Boundary(state, times).value
    ensures DueEvent(state, times, now).Some? ==>
              && Transition(state, DueEvent(state, times, now).value).Some?
              && Rank(Transition(state, DueEvent(state, times, now).value).value) == Rank(state) + 1
  {
  }

  /** Where the clock alone puts a scheduled market. */
  function ClockRank(times: Times, now: int): nat {
    if now < times.opensAt then 1 else if now < times.hiddenAt then 2 else if now < times.closesAt then 3 else 4
  }

  /** The boundary after the state of this rank has passed. */
  predicate RankPassed(times: Times, rank: int, now: int) {
    (rank == 1 && now >= times.opensAt) || (rank == 2 && now >= times.hiddenAt) || (rank == 3 && now >= times.closesAt)
  }

  /** With no one else at work, a due advance goes through: its key cannot have been used. */
  lemma AloneAdvances(row: Row, times: Times, now: int)
    requires KeysBehind(row) && DueEvent(row.state, times, now).Some?
    ensures var event := DueEvent(row.state, times, now).value;
            var (row', reply) := AdvanceNext(row, Sched(event), event);
            !reply.Refused? && Rank(row'.state) == Rank(row.state) + 1 && RankPassed(times, Rank(row.state), now)
  {
    var event := DueEvent(row.state, times, now).value;
    assert Sched(event) !in row.commands;
    TableIsExact(row.state, event);
  }

  /** How a cascade ends: nothing due, over to resolution, over to the sweep, or a refused advance. */
  datatype Ending = NothingDue | ToResolve | ToSweep | Illegal

  class Runner {
    const times: Times
    var state: MarketState
    var commands: map<Key, Recorded>
    var flagged: bool

    ghost function View(): Row
      reads this
    {
      Row(state, commands, flagged)
    }

    constructor (times: Times)
      ensures View() == Row(Scheduled, map[], false) && this.times == times
    {
      this.times, state, commands, flagged := times, Scheduled, map[], false;
    }

    method Execute(key: Key, event: MarketEvent) returns (reply: Reply)
      modifies this
      ensures (View(), reply) == AdvanceNext(old(View()), key, event)
    {
      if !event.IsNonFinancial() { return Refused; }
      if key in commands { return Replayed(SourceState(commands[key].event), commands[key].resulting); }
      var from, to := state, Transition(state, event);
      if to.None? { return Refused; }
      state := to.value;
      commands := commands[key := Recorded(event, to.value)];
      return Moved(from, to.value);
    }

    /** Everything other runners, admins and resolutions commit at this point. */
    method Interfere(others: seq<Other>)
      modifies this
      ensures View() == OthersRun(old(View()), others)
    {
      for i := 0 to |others|
        invariant View() == OthersRun(old(View()), others[..i])
      {
        assert others[..i + 1][..i] == others[..i];
        var row := OtherNext(Row(state, commands, flagged), others[i]);
        state, commands, flagged := row.state, row.commands, row.flagged;
      }
      assert others[..|others|] == others;
    }

    /**
     Advances through every boundary already passed. Before each read and
     between a read and its advance, others may do anything; still every turn
     that does not end the loop raises the state it will read next.
     */
    method Cascade(clock: nat -> int, sweepDue: nat -> bool, before: nat -> seq<Other>, between: nat -> seq<Other>)
      returns (advanced: nat, ending: Ending, seen: MarketState)
      requires KeysBehind(View())
      modifies this
      ensures KeysBehind(View())
      ensures advanced <= 3 && Rank(seen) >= Rank(old(state)) + advanced && Rank(state) >= Rank(seen)
      ensures match ending
              case ToResolve => seen.Closed?
              case ToSweep => seen.Resolving?
              case Illegal => DueEvent(seen, times, clock(advanced)).Some?
              case NothingDue => !seen.Closed? && DueEvent(seen, times, clock(advanced)).None?
      ensures (forall k :: before(k) == [] && between(k) == [] && clock(k) == clock(0))
              && 1 <= Rank(old(state)) <= 4 && times.opensAt <= times.hiddenAt <= times.closesAt ==>
                var due := ClockRank(times, clock(0));
                Rank(state) == (if due > Rank(old(state)) then due else Rank(old(state))) && !ending.Illegal?
    {
      ghost var alone := forall k :: before(k) == [] && between(k) == [] && clock(k) == clock(0);
      advanced := 0;
      ghost var last := Rank(state) - 1;
      while true
        invariant KeysBehind(View())
        invariant Rank(state) > last && last + 1 >= Rank(old(state)) + advanced
        invariant advanced > 0 ==> advanced <= last && last <= 3
        invariant alone ==> Rank(state) == Rank(old(state)) + advanced
        invariant alone && advanced > 0 ==> RankPassed(times, Rank(state) - 1, clock(0))
        decreases 8 - last
      {
        OthersKeep(View(), before(advanced));
        Interfere(before(advanced));
        seen := state;
        var reviewable, now := !flagged && sweepDue(advanced), clock(advanced);
        OthersKeep(View(), between(advanced));
        Interfere(between(advanced));
        if seen.Closed? { return advanced, ToResolve, seen; }
        if seen.Resolving? && reviewable { return advanced, ToSweep, seen; }
        var event := DueEvent(seen, times, now);
        if event.None? { return advanced, NothingDue, seen; }
        if alone { AloneAdvances(View(), times, now); }
        AdvanceKeeps(View(), Sched(event.value), event.value);
        var reply := Execute(Sched(event.value), event.value);
        if reply.Refused? { return advanced, Illegal, seen; }
        last := Rank(seen);
        advanced := advanced + 1;
      }
    }
  }
}
