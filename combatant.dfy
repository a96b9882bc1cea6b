/**
 * A combatant as this module sees it: the module's flags (`dummy`,
 * `disposition`, `activations`), the host fields it reads (`hidden`,
 * `defeated`, the token's disposition) and the linked actor, reduced to the
 * few facts the core consults. The getters of `LancerCombatant` are functions
 * here.
 */
module Combatants {
  import opened Wrappers
  import opened Ledger

  /** A user of the host: the permission gate only asks whether they are a GM. */
  datatype User = User(id: string, isGM: bool)

  /**
   * The facts about a combatant's actor that the core reads: whether a player
   * owns it, its prototype token's disposition, which users hold OWNER
   * permission on it, whether it carries the defeated status effect, and its
   * roll data as a partial map from property paths to numbers.
   */
  datatype Actor = Actor(
    hasPlayerOwner: bool,
    tokenDisposition: Option<int>,
    owners: set<string>,
    defeatedStatus: bool,
    rollData: map<string, int>)

  datatype Combatant = Combatant(
    id: string,
    dummy: bool,                  // flag `dummy`; an absent flag is false
    hidden: bool,
    dispositionFlag: Option<int>, // flag `disposition`
    activations: Activations,     // flag `activations`; an absent flag is Unset
    defeated: bool,               // the host's own `defeated` field
    tokenDisposition: Option<int>,// disposition of the combatant's token, if it has one
    actor: Option<Actor>)

  /** The module configuration the core reads: the roll-data path of the activation count. */
  datatype Config = Config(activationPath: Option<string>)

  /**
   * The sentinel that `_preCreate` and `addMissingDummy` create: flagged
   * `dummy`, hidden, with a maximum of zero activations and nothing else.
   */
  function NewDummy(id: string): (c: Combatant)
    ensures c.id == id && c.dummy && c.hidden
    ensures c.activations == Activations(Some(0), None)
    ensures c.actor.None? && c.tokenDisposition.None? && c.dispositionFlag.None? && !c.defeated
  {
    Combatant(id, true, true, None, Activations(Some(0), None), false, None, None)
  }

  /**
   * The `disposition` getter: the explicit flag, else 2 when a player owns
   * the actor, else the token's disposition, else the actor's prototype
   * token disposition, else -2.
   */
  function Disposition(c: Combatant): (r: int)
    ensures c.dispositionFlag.Some? ==> r == c.dispositionFlag.value
    ensures c.dispositionFlag.None? && c.actor.Some? && c.actor.value.hasPlayerOwner ==> r == 2
    ensures c.dispositionFlag.None? && (c.actor.None? || !c.actor.value.hasPlayerOwner) ==>
              r == c.tokenDisposition.GetOr(
                     if c.actor.Some? then c.actor.value.tokenDisposition.GetOr(-2) else -2)
  {
    match c.dispositionFlag
    case Some(d) => d
    case None =>
      if c.actor.Some? && c.actor.value.hasPlayerOwner then 2
      else if c.tokenDisposition.Some? then c.tokenDisposition.value
      else if c.actor.Some? && c.actor.value.tokenDisposition.Some? then c.actor.value.tokenDisposition.value
      else -2
  }

  /**
   * The `isVisible` getter: a dummy is never visible; any other combatant is
   * as visible as the host says (`hostVisible`).
   */
  function IsVisible(c: Combatant, hostVisible: bool): (r: bool)
    ensures c.dummy ==> !r
    ensures !c.dummy ==> r == hostVisible
  {
    if c.dummy then false else hostVisible
  }

  /**
   * `testUserPermission(user, "OWNER")`: the actor's permission when there is
   * an actor, otherwise only a GM.
   */
  function IsOwner(c: Combatant, user: User): (r: bool)
    ensures c.actor.None? ==> r == user.isGM
    ensures c.actor.Some? ==> r == (user.id in c.actor.value.owners)
  {
    match c.actor
    case Some(a) => user.id in a.owners
    case None => user.isGM
  }

  /**
   * The defeated test of `resetActivations`: the host's `defeated` field or
   * the defeated status effect on the actor.
   */
  predicate IsDefeated(c: Combatant) {
    c.defeated || (c.actor.Some? && c.actor.value.defeatedStatus)
  }

  /**
   * `getProperty(actor?.getRollData() ?? {}, path)` for a truthy path, read
   * as a number; `None` when there is no actor or the path is absent.
   */
  function RollDataLookup(c: Combatant, path: string): (r: Option<int>)
    ensures r.Some? <==> c.actor.Some? && path in c.actor.value.rollData
    ensures r.Some? ==> r.value == c.actor.value.rollData[path]
  {
    if c.actor.Some? && path in c.actor.value.rollData then Some(c.actor.value.rollData[path])
    else None
  }

  /**
   * The activation count `prepareBaseData` derives: the roll-data value at the
   * configured path when the path is set and non-empty and the value exists,
   * else 1.
   */
  function InitialMax(c: Combatant, cfg: Config): (r: int)
    ensures (cfg.activationPath.None? || cfg.activationPath.value == []) ==> r == 1
    ensures cfg.activationPath.Some? && cfg.activationPath.value != [] ==>
              r == RollDataLookup(c, cfg.activationPath.value).GetOr(1)
  {
    (if cfg.activationPath.Some? && cfg.activationPath.value != []
     then RollDataLookup(c, cfg.activationPath.value)
     else None).GetOr(1)
  }

  /**
   * `prepareBaseData`: when `max` is unset and the canvas is ready, `max` is
   * initialised to the derived count; `value` and every other field are kept.
   */
  function PrepareBaseData(c: Combatant, canvasReady: bool, cfg: Config): (r: Combatant)
    ensures r.activations.value == c.activations.value
    ensures r == c.(activations := r.activations)
    ensures c.activations.max.Some? || !canvasReady ==> r == c
    ensures c.activations.max.None? && canvasReady ==> r.activations.max == Some(InitialMax(c, cfg))
  {
    if c.activations.max.None? && canvasReady
    then c.(activations := c.activations.(max := Some(InitialMax(c, cfg))))
    else c
  }

  /** Preparing a combatant twice is the same as preparing it once. */
  lemma PrepareBaseDataIdempotent(c: Combatant, canvasReady: bool, cfg: Config)
    ensures PrepareBaseData(PrepareBaseData(c, canvasReady, cfg), canvasReady, cfg)
            == PrepareBaseData(c, canvasReady, cfg)
  {
  }

  /**
   * Initialising `max` keeps the ledger consistent exactly when the derived
   * count is at least the current value.
   */
  lemma PrepareBaseDataConsistent(c: Combatant, cfg: Config)
    requires Consistent(c.activations) && c.activations.max.None?
    ensures Consistent(PrepareBaseData(c, true, cfg).activations)
            <==> InitialMax(c, cfg) >= c.activations.value.GetOr(0)
  {
  }

  /**
   * A fresh sentinel ranks -2, is owned by GMs only, and is never visible.
   */
  lemma DummyShape(id: string, user: User, hostVisible: bool)
    ensures Disposition(NewDummy(id)) == -2
    ensures IsOwner(NewDummy(id), user) == user.isGM
    ensures !IsVisible(NewDummy(id), hostVisible)
    ensures !IsDefeated(NewDummy(id)) && Consistent(NewDummy(id).activations)
  {
  }

  /** The activations a round reset grants: 0 for a skipped defeated combatant, else `max ?? 0`. */
  function ResetValue(c: Combatant, skipDefeated: bool): (r: Combatant)
    ensures r == c.(activations := r.activations)
    ensures r.activations.max == c.activations.max
    ensures skipDefeated && IsDefeated(c) ==> r.activations.value == Some(0)
    ensures !(skipDefeated && IsDefeated(c)) ==> r.activations.value == Some(c.activations.max.GetOr(0))
  {
    c.(activations := c.activations.(value := Some(
      if skipDefeated && IsDefeated(c) then 0 else c.activations.max.GetOr(0))))
  }

  /**
   * A reset leaves a ledger with a non-negative maximum consistent, is
   * idempotent, and gives the sentinel nothing to spend.
   */
  lemma ResetValueProperties(c: Combatant, skipDefeated: bool, id: string)
    ensures (c.activations.max.Some? ==> c.activations.max.value >= 0) ==>
              Consistent(ResetValue(c, skipDefeated).activations)
    ensures ResetValue(ResetValue(c, skipDefeated), skipDefeated) == ResetValue(c, skipDefeated)
    ensures ResetValue(NewDummy(id), skipDefeated).activations == Activations(Some(0), Some(0))
  {
  }
}
