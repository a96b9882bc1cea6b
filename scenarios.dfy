/**
 * Client-side scenarios: what a caller can conclude from the contracts of
 * `Combat` alone, in typical tracker situations.
 */
module Scenarios {
  import opened Wrappers
  import opened Ledger
  import opened Combatants
  import opened TurnOrder
  import opened LancerCombat

  /** A combatant with no actor or token and the given ledger. */
  function Plain(id: string, a: Activations): (c: Combatant)
    ensures c.id == id && c.activations == a && !c.dummy && !IsDefeated(c)
  {
    Combatant(id, false, false, None, a, false, None, None)
  }

  method ActivationScenarios() {
    var gm := User("gm", true);
    var player := User("p", false);
    var unit := Plain("u", Activations(Some(2), Some(2)));
    var combat := new Combat([unit], false, (a, b) => 0);
    combat.PreCreate();
    assert combat.combatants[0] == unit && combat.combatants[1].dummy;

    // A player's click only raises a request.
    combat.ActivateCombatant("u", player);
    assert combat.combatants[0] == unit && combat.requests == ["u"];

    // The GM's activation spends one and points the tracker at the unit.
    assert IndexOf(combat.combatants, "u") == 0;
    combat.ActivateCombatant("u", gm);
    assert combat.combatants[0].activations == Activations(Some(2), Some(1));
    assert combat.Turns()[combat.turn].id == "u";

    // Two more attempts: the second finds nothing left and changes nothing.
    combat.ActivateCombatant("u", gm);
    assert combat.combatants[0].activations == Activations(Some(2), Some(0));
    var before := combat.combatants;
    var t := combat.turn;
    combat.ActivateCombatant("u", gm);
    assert combat.combatants == before && combat.turn == t;

    // Stepping back from round 0 stays at round 0 with no time adjustment.
    var adv := combat.PreviousRound(6);
    assert combat.round == 0 && adv == 0 && combat.turn == 0;
    assert combat.combatants[0].activations == Activations(Some(2), Some(2));
  }

  method MigrationScenario() {
    var gm := User("gm", true);
    var unit := Plain("u", Unset);
    var bare := new Combat([unit], false, (a, b) => 0);
    var ready := new Combat([unit], false, (a, b) => 0);
    ready.PreCreate();
    var readyBefore := ready.combatants;
    assert readyBefore[1].dummy;
    BackfillCorrect(readyBefore);
    var all := [bare, ready];
    AddMissingDummy(all, gm);
    assert all[0] == bare && all[1] == ready;
    BackfillCorrect([unit]);
    assert CountDummies(bare.combatants) == 1 && ready.combatants == readyBefore;
    var once := bare.combatants;
    AddMissingDummy(all, gm);
    assert all[0] == bare && all[1] == ready;
    assert bare.combatants == once;
  }
}
