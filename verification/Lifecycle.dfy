/** The market lifecycle: one total table from state and event to the next state. */
module Lifecycle {
  import opened Money

  datatype MarketState = Draft | Scheduled | Live | Closing | Closed | Resolving | Resolved | Paid | Voided

  datatype MarketEvent =
    | Approve | GoLive | EnterCloseWindow | Close | StartIntegritySweep
    | Resolve | Pay | VoidLowParticipation | VoidByAdmin
  {
    /** Events without money consequences; the only ones an advance command may carry. */
    predicate IsNonFinancial() { Approve? || GoLive? || EnterCloseWindow? || Close? || StartIntegritySweep? }
  }

  function Transition(state: MarketState, event: MarketEvent): Option<MarketState> {
    match (state, event)
    case (Draft, Approve) => Some(Scheduled)
    case (Scheduled, GoLive) => Some(Live)
    case (Live, EnterCloseWindow) => Some(Closing)
    case (Closing, Close) => Some(Closed)
    case (Closed, StartIntegritySweep) => Some(Resolving)
    case (Closed, Resolve) => Some(Resolved)
    case (Resolving, Resolve) => Some(Resolved)
    case (Resolved, Pay) => Some(Paid)
    case (Closed, VoidLowParticipation) => Some(Voided)
    case (Resolving, VoidLowParticipation) => Some(Voided)
    case (Paid, VoidByAdmin) => None
    case (Voided, VoidByAdmin) => None
    case (_, VoidByAdmin) => Some(Voided)
    case _ => None
  }

  /** The state an event leaves, as a replayed advance reports it. */
  function SourceState(event: MarketEvent): MarketState {
    match event
    case Approve => Draft
    case GoLive => Scheduled
    case EnterCloseWindow => Live
    case Close => Closing
    case StartIntegritySweep => Closed
    case _ => Resolving
  }

  function Rank(state: MarketState): nat {
    match state
    case Draft => 0
    case Scheduled => 1
    case Live => 2
    case Closing => 3
    case Closed => 4
    case Resolving => 5
    case Resolved => 6
    case Paid => 7
    case Voided => 8
  }

  /**
   Every legal edge climbs in rank, so no state is ever revisited; and a
   non-financial event is legal exactly in its own source state, so a replayed
   receipt names the state the original left.
   */
  lemma EdgesClimb(state: MarketState, event: MarketEvent)
    ensures Transition(state, event).Some? ==> Rank(Transition(state, event).value) > Rank(state)
    ensures event.IsNonFinancial() ==> (Transition(state, event).Some? <==> state == SourceState(event))
    ensures state.Paid? || state.Voided? <==> forall e :: Transition(state, e).None?
  {
    if !state.Paid? && !state.Voided? {
      assert Transition(state, VoidByAdmin).Some?;
    }
  }

  /**
   Without money consequences a market goes up exactly one rank, from the
   event's source state. A resolution is decided only after the close, paid
   only once decided, and every void ends in Voided, from any unfinished state
   by an admin and only after the close for too few votes.
   */
  lemma TableIsExact(state: MarketState, event: MarketEvent)
    ensures var to := Transition(state, event);
            if event.IsNonFinancial()
            then (to.Some? <==> state == SourceState(event)) && (to.Some? ==> Rank(to.value) == Rank(state) + 1)
            else match event
                 case Resolve => to == if Rank(state) in {4, 5} then Some(Resolved) else None
                 case Pay => to == if state.Resolved? then Some(Paid) else None
                 case VoidLowParticipation => to == if Rank(state) in {4, 5} then Some(Voided) else None
                 case _ => to == if Rank(state) < 7 then Some(Voided) else None
  {
  }
}
