/** A resolution taking its locks on the shared lock table while others go on working. */
module LockSession {
  import opened Money
  import opened Locks

  const ATTEMPTS := 4

  /** Steps of other transactions only. */
  predicate Foreign(steps: seq<Step>, mine: set<nat>) { forall i :: 0 <= i < |steps| ==> steps[i].t !in mine }

  /** Others cannot touch a transaction's own record. */
  predicate SameMine(a: System, b: System, mine: set<nat>) {
    forall t :: t in mine ==> (t in a.table <==> t in b.table) && (t in a.table ==> b.table[t] == a.table[t])
  }

  lemma {:induction false} ForeignKeepsMine(sys: System, steps: seq<Step>, mine: set<nat>)
    requires Foreign(steps, mine)
    ensures SameMine(sys, Run(sys, steps), mine)
    decreases |steps|
  {
    if steps != [] {
      var init := steps[..|steps| - 1];
      assert Foreign(init, mine);
      ForeignKeepsMine(sys, init, mine);
      assert steps[|steps| - 1].t !in mine;
    }
  }

  method ListSet(users: set<nat>) returns (listing: seq<nat>)
    ensures SetOf(listing) == users
  {
    listing := [];
    var left := users;
    while left != {}
      invariant left <= users && SetOf(listing) == users - left
      decreases left
    {
      var u :| u in left;
      assert SetOf(listing + [u]) == SetOf(listing) + {u};
      listing := listing + [u];
      left := left - {u};
    }
  }

  method BinarySearch(s: seq<nat>, u: nat) returns (found: bool)
    requires StrictlySorted(s)
    ensures found <==> u in s
  {
    var low, high := 0, |s|;
    while low < high
      invariant 0 <= low <= high <= |s|
      invariant forall i :: 0 <= i < |s| && !(low <= i < high) ==> s[i] != u
    {
      var mid := (low + high) / 2;
      if s[mid] == u { return true; }
      if s[mid] < u { low := mid + 1; } else { high := mid; }
    }
    return false;
  }

  /** Whether everyone present is among the locked. */
  method AllFound(locked: seq<nat>, present: seq<nat>) returns (covered: bool)
    requires StrictlySorted(locked)
    ensures covered <==> forall u :: u in present ==> u in locked
  {
    for i := 0 to |present|
      invariant forall j :: 0 <= j < i ==> present[j] in locked
    {
      var found := BinarySearch(locked, present[i]);
      if !found { return false; }
    }
    return true;
  }

  /** The locked users that are voters under the market lock. */
  method Filter(locked: seq<nat>, voters: seq<nat>) returns (scored: seq<nat>)
    requires StrictlySorted(voters)
    ensures forall u :: u in scored <==> u in locked && u in voters
  {
    scored := [];
    for i := 0 to |locked|
      invariant forall u :: u in scored <==> u in locked[..i] && u in voters
    {
      assert locked[..i + 1] == locked[..i] + [locked[i]];
      var found := BinarySearch(voters, locked[i]);
      if found { scored := scored + [locked[i]]; }
    }
    assert locked[..|locked|] == locked;
  }

  /** How one attempt ends: ready to write, abandoned for a newcomer, or still waiting when observation ends. */
  datatype Try = Ready(scored: seq<nat>) | Newcomer | StillWaiting

  datatype Outcome = Locked(attempt: nat, scored: seq<nat>) | Unstable | Unfinished(attempt: nat)

  /** A resolution of the market may write: everyone who takes part now is locked, and the voters are known. */
  ghost predicate MayWrite(sys: System, t: nat, market: nat, scored: seq<nat>) {
    && t in sys.table && sys.table[t].passed
    && Holds(sys.table[t], MarketLock(market))
    && (forall u :: u in Participants(sys.db, market) ==> Holds(sys.table[t], UserLock(u)))
    && SetOf(scored) == UsersOf(sys.db.voters, market)
  }

  lemma CoveredIsSubset(listing: seq<nat>, present: seq<nat>)
    ensures (forall u :: u in SortDedup(present) ==> u in SortDedup(listing)) <==> SetOf(present) <= SetOf(listing)
  {
    var before, after := SortDedup(listing), SortDedup(present);
    assert forall u :: u in before <==> u in SetOf(listing);
    assert forall u :: u in after <==> u in SetOf(present);
    if forall u :: u in after ==> u in before {
      forall u | u in SetOf(present) ensures u in SetOf(listing) { assert u in after; }
    }
  }

  lemma VotersAreListed(db: Db, market: nat, listing: seq<nat>, voters: seq<nat>, scored: seq<nat>)
    requires Participants(db, market) <= SetOf(listing) && SetOf(voters) == UsersOf(db.voters, market)
    requires forall u :: u in scored <==> u in SortDedup(listing) && u in SortDedup(voters)
    ensures SetOf(scored) == UsersOf(db.voters, market)
  {
    forall u ensures u in SetOf(scored) <==> u in UsersOf(db.voters, market) {
      assert u in voters <==> u in SetOf(voters);
      assert u in listing <==> u in SetOf(listing);
    }
  }

  class Server {
    var sys: System

    constructor ()
      ensures sys == EMPTY
    {
      sys := EMPTY;
    }

    method Do(step: Step)
      requires Inv(sys)
      modifies this
      ensures sys == Perform(old(sys), step) && Inv(sys)
    {
      StepKeepsInv(sys, step);
      sys := Perform(sys, step);
    }

    /** Everything other transactions do at this point. */
    method LetOthers(others: seq<Step>, ghost mine: set<nat>)
      requires Inv(sys) && Foreign(others, mine)
      modifies this
      ensures Inv(sys) && SameMine(old(sys), sys, mine)
    {
      RunKeepsInv(sys, others);
      ForeignKeepsMine(sys, others, mine);
      for i := 0 to |others|
        invariant sys == Run(old(sys), others[..i])
      {
        assert others[..i + 1][..i] == others[..i];
        sys := Perform(sys, others[i]);
      }
      assert others[..|others|] == others;
    }

    /** One attempt: key, list, lock all of them in order, lock the market, list again. */
    method TryOnce(t: nat, key: nat, market: nat, others: nat -> seq<Step>, ghost mine: set<nat>) returns (r: Try)
      requires Inv(sys) && t in mine && t !in sys.table && forall k :: Foreign(others(k), mine)
      modifies this
      ensures Inv(sys) && SameMine(old(sys), sys, mine - {t})
      ensures r.Ready? ==> MayWrite(sys, t, market, r.scored)
      ensures r.Newcomer? ==> t !in sys.table
    {
      var listing := ListUsers(t, key, market, others, mine);
      if listing.None? { return StillWaiting; }
      var locked := LockListed(t, others, mine);
      if !locked { return StillWaiting; }
      r := ListAgain(t, market, listing.value, mine);
    }

    /** With the key held, lists the participants without locking them. */
    method ListUsers(t: nat, key: nat, market: nat, others: nat -> seq<Step>, ghost mine: set<nat>)
      returns (r: Option<seq<nat>>)
      requires Inv(sys) && t in mine && t !in sys.table && forall k :: Foreign(others(k), mine)
      modifies this
      ensures Inv(sys) && SameMine(old(sys), sys, mine - {t})
      ensures r.Some? ==> t in sys.table && sys.table[t] == Txn(Resolution(key, market), Some(r.value), 1, false, None)
    {
      Do(Begin(t, Resolution(key, market)));
      LetOthers(others(0), mine);
      Do(Grant(t));
      if sys.table[t].held != 1 { return None; }
      LetOthers(others(1), mine);
      var listing := ListSet(Participants(sys.db, market));
      Do(Enumerate(t, listing));
      return Some(listing);
    }

    /** With every lock held, lists again: ready if nobody is new, otherwise the transaction is dropped. */
    method ListAgain(t: nat, market: nat, listing: seq<nat>, ghost mine: set<nat>) returns (r: Try)
      requires Inv(sys) && t in mine && t in sys.table
      requires CanRecheck(sys.table[t]) && sys.table[t].listed == Some(listing) && sys.table[t].command.market == market
      modifies this
      ensures Inv(sys) && SameMine(old(sys), sys, mine - {t})
      ensures r.Ready? ==> MayWrite(sys, t, market, r.scored)
      ensures r.Newcomer? ==> t !in sys.table
      ensures !r.StillWaiting?
    {
      var present := ListSet(Participants(sys.db, market));
      var covered := AllFound(SortDedup(listing), SortDedup(present));
      CoveredIsSubset(listing, present);
      Do(Recheck(t));
      if !covered { return Newcomer; }
      PassedHoldsAll(sys.table[t], sys.db);
      var voters := ListSet(UsersOf(sys.db.voters, market));
      var scored := Filter(SortDedup(listing), SortDedup(voters));
      VotersAreListed(sys.db, market, listing, voters, scored);
      return Ready(scored);
    }

    /** Asks for every remaining lock in order, while others go on. */
    method LockListed(t: nat, others: nat -> seq<Step>, ghost mine: set<nat>) returns (locked: bool)
      requires Inv(sys) && t in mine && t in sys.table && forall k :: Foreign(others(k), mine)
      modifies this
      ensures Inv(sys) && SameMine(old(sys), sys, mine - {t})
      ensures t in sys.table && sys.table[t] == old(sys.table[t]).(held := sys.table[t].held)
      ensures locked ==> !Waiting(sys.table[t])
    {
      var turn := 2;
      while Waiting(sys.table[t])
        invariant Inv(sys) && SameMine(old(sys), sys, mine - {t})
        invariant t in sys.table && sys.table[t] == old(sys.table[t]).(held := sys.table[t].held)
        decreases |Requests(sys.table[t].command, sys.table[t].listed)| - sys.table[t].held
      {
        LetOthers(others(turn), mine);
        var before := sys.table[t].held;
        Do(Grant(t));
        if sys.table[t].held == before { return false; }
        turn := turn + 1;
      }
      return true;
    }

    /**
     Retries while someone new appeared. When it goes on to its writes, the
     lock table itself shows every participant locked by this transaction.
     */
    method LockParticipants(ids: seq<nat>, key: nat, market: nat, others: (nat, nat) -> seq<Step>) returns (r: Outcome)
      requires Inv(sys) && |ids| == ATTEMPTS
      requires forall i, j :: 0 <= i < j < |ids| ==> ids[i] != ids[j]
      requires forall i :: 0 <= i < |ids| ==> ids[i] !in sys.table
      requires forall a, k :: Foreign(others(a, k), set i | 0 <= i < |ids| :: ids[i])
      modifies this
      ensures Inv(sys)
      ensures r.Locked? ==> r.attempt < ATTEMPTS && MayWrite(sys, ids[r.attempt], market, r.scored)
      ensures r.Unstable? ==> forall i :: 0 <= i < |ids| ==> ids[i] !in sys.table
    {
      ghost var mine := set i | 0 <= i < |ids| :: ids[i];
      for attempt := 0 to ATTEMPTS
        invariant Inv(sys)
        invariant forall i :: 0 <= i < |ids| ==> ids[i] !in sys.table
      {
        var tried := TryOnce(ids[attempt], key, market, (k: nat) => others(attempt, k), mine);
        match tried
        case Ready(scored) => return Locked(attempt, scored);
        case StillWaiting => return Unfinished(attempt);
        case Newcomer =>
      }
      return Unstable;
    }
  }
}
