/** When three archival endpoints prove that a signed transfer did not land and never will. */
module Quorum {
  import opened Money
  import opened Refund

  datatype Observation = Observation(endpoint: nat, height: Option<int>, present: Option<bool>, pruned: bool) {
    predicate Usable() { !pruned && height.Some? && present.Some? }
    predicate Fails(lastValid: int) { height.Some? && height.value > lastValid && present == Some(false) }
  }

  function FailVotes(lastValid: int, obs: seq<Observation>): nat {
    if obs == [] then 0
    else FailVotes(lastValid, obs[..|obs| - 1]) + (if obs[|obs| - 1].Fails(lastValid) then 1 else 0)
  }

  predicate AllUsable(obs: seq<Observation>) { forall i :: 0 <= i < |obs| ==> obs[i].Usable() }

  function Endpoints(obs: seq<Observation>): set<nat> { set i | 0 <= i < |obs| :: obs[i].endpoint }

  /** Two failing votes are enough, unless any answer is unusable; the counter saturates at a byte. */
  method NonLandingVerdict(lastValid: int, obs: seq<Observation>) returns (definitive: bool)
    ensures definitive <==> AllUsable(obs) && FailVotes(lastValid, obs) >= 2
  {
    var votes := 0;
    for i := 0 to |obs|
      invariant AllUsable(obs[..i])
      invariant votes == if FailVotes(lastValid, obs[..i]) < 255 then FailVotes(lastValid, obs[..i]) else 255
    {
      assert obs[..i + 1][..i] == obs[..i];
      if obs[i].pruned || obs[i].height.None? || obs[i].present.None? {
        assert !obs[i].Usable();
        return false;
      }
      if obs[i].height.value > lastValid && !obs[i].present.value {
        votes := if votes == 255 then 255 else votes + 1;
      }
    }
    assert obs[..|obs|] == obs;
    return votes >= 2;
  }

  /** Exactly three answers, from exactly the three pinned endpoints, none of which saw the signature. */
  predicate Definitive(lastValid: int, obs: seq<Observation>, expected: set<nat>) {
    && |obs| == 3 && |Endpoints(obs)| == 3 && Endpoints(obs) == expected
    && (forall i :: 0 <= i < |obs| ==> obs[i].present != Some(true))
    && AllUsable(obs) && FailVotes(lastValid, obs) >= 2
  }

  method RefundVerdict(lastValid: int, obs: seq<Observation>, expected: set<nat>) returns (definitive: bool)
    ensures definitive <==> Definitive(lastValid, obs, expected)
  {
    var observed: set<nat> := {};
    var seen := false;
    for i := 0 to |obs|
      invariant observed == Endpoints(obs[..i])
      invariant seen <==> exists j :: 0 <= j < i && obs[j].present == Some(true)
    {
      assert Endpoints(obs[..i + 1]) == Endpoints(obs[..i]) + {obs[i].endpoint};
      observed := observed + {obs[i].endpoint};
      if obs[i].present == Some(true) { seen := true; }
    }
    assert obs[..|obs|] == obs;
    if |obs| != 3 || |observed| != 3 || observed != expected || seen { return false; }
    definitive := NonLandingVerdict(lastValid, obs);
  }

  /** Two failing votes mean two different answers that each say: past its time, and not there. */
  lemma {:induction false} TwoVotes(lastValid: int, obs: seq<Observation>)
    ensures FailVotes(lastValid, obs) >= 1 <==> exists i :: 0 <= i < |obs| && obs[i].Fails(lastValid)
    ensures FailVotes(lastValid, obs) >= 2
       <==> exists i, j :: 0 <= i < j < |obs| && obs[i].Fails(lastValid) && obs[j].Fails(lastValid)
  {
    if obs != [] {
      var init, last := obs[..|obs| - 1], obs[|obs| - 1];
      TwoVotes(lastValid, init);
      if exists i :: 0 <= i < |init| && init[i].Fails(lastValid) {
        var i :| 0 <= i < |init| && init[i].Fails(lastValid);
        assert obs[i].Fails(lastValid);
        if last.Fails(lastValid) { assert i < |obs| - 1 && obs[|obs| - 1].Fails(lastValid); }
      }
      if exists i, j :: 0 <= i < j < |init| && init[i].Fails(lastValid) && init[j].Fails(lastValid) {
        var i, j :| 0 <= i < j < |init| && init[i].Fails(lastValid) && init[j].Fails(lastValid);
        assert obs[i].Fails(lastValid) && obs[j].Fails(lastValid);
      }
    }
  }

  lemma OneOfTwo(present: Option<bool>)
    requires present.Some?
    ensures present != Some(true) <==> present == Some(false)
  {
    if present.value { assert present == Some(true); } else { assert present == Some(false); }
  }

  /** Three answers from the three pinned endpoints, all complete and all negative, two of them past the time. */
  lemma DefinitiveIff(lastValid: int, obs: seq<Observation>, expected: set<nat>)
    ensures Definitive(lastValid, obs, expected)
       <==> && |obs| == 3 && Endpoints(obs) == expected && |expected| == 3
            && (forall i :: 0 <= i < |obs| ==> !obs[i].pruned && obs[i].height.Some? && obs[i].present == Some(false))
            && exists i, j :: 0 <= i < j < |obs| && obs[i].height.value > lastValid && obs[j].height.value > lastValid
  {
    TwoVotes(lastValid, obs);
    if exists i, j :: 0 <= i < j < |obs| && obs[i].Fails(lastValid) && obs[j].Fails(lastValid) {
      var i, j :| 0 <= i < j < |obs| && obs[i].Fails(lastValid) && obs[j].Fails(lastValid);
      assert obs[i].height.value > lastValid && obs[j].height.value > lastValid;
    }
    var complete := forall i :: 0 <= i < |obs| ==> obs[i].Usable() && obs[i].present == Some(false);
    forall i | 0 <= i < |obs| && obs[i].present.Some?
      ensures obs[i].present != Some(true) <==> obs[i].present == Some(false)
    {
      OneOfTwo(obs[i].present);
    }
    assert complete <==> AllUsable(obs) && forall i :: 0 <= i < |obs| ==> obs[i].present != Some(true);
    if complete
      && exists i, j :: 0 <= i < j < |obs| && obs[i].height.value > lastValid && obs[j].height.value > lastValid {
      var i, j :| 0 <= i < j < |obs| && obs[i].height.value > lastValid && obs[j].height.value > lastValid;
      assert obs[i].Fails(lastValid) && obs[j].Fails(lastValid);
    }
  }

  // ---------------------------------------------------------------- soundness

  /** An endpoint that tells the truth about its own finalized history. */
  predicate Honest(o: Observation, height: int, landed: map<Signed, int>, s: Signed) {
    && (o.height.Some? ==> o.height.value <= height)
    && (o.Usable() && o.present == Some(false) ==> s !in landed || landed[s] > o.height.value)
  }

  lemma {:induction false} VotesComeFromEndpoints(lastValid: int, obs: seq<Observation>, faulty: nat)
    requires forall i, j :: 0 <= i < j < |obs| ==> obs[i].endpoint != obs[j].endpoint
    requires FailVotes(lastValid, obs) >= if exists i :: 0 <= i < |obs| && obs[i].endpoint == faulty then 2 else 1
    ensures exists i :: 0 <= i < |obs| && obs[i].endpoint != faulty && obs[i].Fails(lastValid)
    decreases |obs|
  {
    var n := |obs|;
    var init := obs[..n - 1];
    if obs[n - 1].endpoint != faulty && obs[n - 1].Fails(lastValid) {
      assert obs[n - 1].Fails(lastValid);
    } else {
      if exists i :: 0 <= i < |init| && init[i].endpoint == faulty {
        var i :| 0 <= i < |init| && init[i].endpoint == faulty;
        assert obs[i].endpoint == faulty;
      }
      VotesComeFromEndpoints(lastValid, init, faulty);
      var i :| 0 <= i < |init| && init[i].endpoint != faulty && init[i].Fails(lastValid);
      assert obs[i].endpoint != faulty && obs[i].Fails(lastValid);
    }
  }

  lemma DistinctEndpoints(obs: seq<Observation>)
    requires |obs| == 3 && |Endpoints(obs)| == 3
    ensures forall i, j :: 0 <= i < j < |obs| ==> obs[i].endpoint != obs[j].endpoint
  {
    var a, b, c := obs[0].endpoint, obs[1].endpoint, obs[2].endpoint;
    assert Endpoints(obs) == {a, b, c};
  }

  /** With at most one lying endpoint, a definitive verdict means: not landed, and too late to land. */
  lemma VerdictIsSound(s: Signed, obs: seq<Observation>, expected: set<nat>, faulty: nat, height: int,
                       landed: map<Signed, int>)
    requires Definitive(s.lastValid, obs, expected)
    requires s in landed ==> landed[s] <= s.lastValid
    requires forall i :: 0 <= i < |obs| && obs[i].endpoint != faulty ==> Honest(obs[i], height, landed, s)
    ensures s !in landed && height > s.lastValid
  {
    DistinctEndpoints(obs);
    VotesComeFromEndpoints(s.lastValid, obs, faulty);
    var i :| 0 <= i < |obs| && obs[i].endpoint != faulty && obs[i].Fails(s.lastValid);
  }
}
