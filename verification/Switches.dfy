/** The pause switches of the configuration, and what a history of changes leaves in force. */
module Switches {
  datatype Switch = TradingPaused | MarketPaused(market: nat) | VotingPaused(market: nat)

  datatype Change = Change(switch: Switch, on: bool)

  /** The last change of a switch counts; one never changed is off. */
  predicate InForce(history: seq<Change>, switch: Switch) {
    history != [] &&
    var last := history[|history| - 1];
    if last.switch == switch then last.on else InForce(history[..|history| - 1], switch)
  }

  predicate Touches(changes: seq<Change>, switch: Switch) {
    exists i :: 0 <= i < |changes| && changes[i].switch == switch
  }

  lemma {:induction false} LaterChangesDecide(before: seq<Change>, later: seq<Change>, switch: Switch)
    ensures InForce(before + later, switch)
       <==> if Touches(later, switch) then InForce(later, switch) else InForce(before, switch)
    decreases |later|
  {
    if later == [] {
      assert before + later == before;
    } else {
      var init, last := later[..|later| - 1], later[|later| - 1];
      LaterChangesDecide(before, init, switch);
      assert (before + later)[..|before + later| - 1] == before + init;
      if Touches(init, switch) {
        var i :| 0 <= i < |init| && init[i].switch == switch;
        assert later[i].switch == switch;
      }
      if Touches(later, switch) && last.switch != switch {
        var i :| 0 <= i < |later| && later[i].switch == switch;
        assert init[i].switch == switch;
      }
    }
  }

  lemma {:induction false} InForceIsTouched(changes: seq<Change>, switch: Switch)
    requires InForce(changes, switch)
    ensures Touches(changes, switch)
  {
    var init, last := changes[..|changes| - 1], changes[|changes| - 1];
    if last.switch != switch {
      InForceIsTouched(init, switch);
      var i :| 0 <= i < |init| && init[i].switch == switch;
      assert changes[i].switch == switch;
    }
  }
}
