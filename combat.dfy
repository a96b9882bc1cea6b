/**
 * `LancerCombat`: the combat whose turn pointer is driven by activations
 * rather than by a fixed succession, and `addMissingDummy`, the migration
 * that backfills the sentinel into existing combats.
 *
 * A host `update` or `updateEmbeddedDocuments` call is a field assignment
 * here. The host's own round transitions are the parameter `host`.
 */
module LancerCombat {
  import opened Wrappers
  import opened Ledger
  import opened Combatants
  import opened TurnOrder

  /** The round and the turn pointer, as the host's transitions see and write them. */
  datatype Pointer = Pointer(round: int, turn: nat)

  /** The host's own `startCombat`, `nextRound` or `resetAll`, after the reset. */
  type HostStep = (seq<Combatant>, Pointer) -> Pointer

  /** No two combatants of a combat share an id (the host keys them by id). */
  predicate UniqueIds(cs: seq<Combatant>) {
    forall i, j :: 0 <= i < j < |cs| ==> cs[i].id != cs[j].id
  }

  /** Whether some combatant is flagged as the sentinel (the `find` of `addMissingDummy`). */
  predicate HasDummy(cs: seq<Combatant>) {
    exists i | 0 <= i < |cs| :: cs[i].dummy
  }

  /**
   * An id no combatant of `cs` has; it stands for the fresh id the host
   * assigns to a created document.
   */
  function FreshId(cs: seq<Combatant>): (id: string)
    ensures forall i :: 0 <= i < |cs| ==> cs[i].id != id
  {
    seq(LongestId(cs) + 1, _ => '0')
  }

  /** The length of the longest id in `cs`. */
  function LongestId(cs: seq<Combatant>): (n: nat)
    ensures forall i :: 0 <= i < |cs| ==> |cs[i].id| <= n
  {
    if cs == [] then 0
    else
      var m := LongestId(cs[1..]);
      if |cs[0].id| > m then |cs[0].id| else m
  }

  /** The combatants with one new sentinel appended. */
  function WithDummy(cs: seq<Combatant>): seq<Combatant> {
    cs + [NewDummy(FreshId(cs))]
  }

  /** What `addMissingDummy` does to one combat's combatants. */
  function Backfill(cs: seq<Combatant>): seq<Combatant> {
    if HasDummy(cs) then cs else WithDummy(cs)
  }

  /**
   * Appending the sentinel keeps every earlier combatant in place, adds
   * exactly one sentinel, and keeps ids unique.
   */
  lemma {:induction false} WithDummyCorrect(cs: seq<Combatant>)
    ensures |WithDummy(cs)| == |cs| + 1 && WithDummy(cs)[..|cs|] == cs
    ensures WithDummy(cs)[|cs|].dummy && WithDummy(cs)[|cs|].hidden
    ensures WithDummy(cs)[|cs|].activations.max == Some(0)
    ensures CountDummies(WithDummy(cs)) == CountDummies(cs) + 1
    ensures UniqueIds(cs) ==> UniqueIds(WithDummy(cs))
  {
    AppendCount(cs, NewDummy(FreshId(cs)));
  }

  /** The sentinel count of a sequence with one element appended. */
  lemma {:induction false} AppendCount(cs: seq<Combatant>, c: Combatant)
    ensures CountDummies(cs + [c]) == CountDummies(cs) + (if c.dummy then 1 else 0)
  {
    if cs != [] {
      AppendCount(cs[1..], c);
      assert (cs + [c])[1..] == cs[1..] + [c];
    }
  }

  /**
   * The backfill gives a combat without a sentinel exactly one and leaves a
   * combat that has one untouched; running it twice adds nothing more.
   */
  lemma BackfillCorrect(cs: seq<Combatant>)
    ensures HasDummy(cs) ==> Backfill(cs) == cs
    ensures !HasDummy(cs) ==> CountDummies(Backfill(cs)) == 1 && Backfill(cs)[..|cs|] == cs
    ensures HasDummy(Backfill(cs))
    ensures Backfill(Backfill(cs)) == Backfill(cs)
    ensures UniqueIds(cs) ==> UniqueIds(Backfill(cs))
  {
    WithDummyCorrect(cs);
    if !HasDummy(cs) {
      assert WithDummy(cs)[|cs|].dummy;
    }
  }

  /** `after` is `before` with every combatant's value reset for the round. */
  ghost predicate IsReset(before: seq<Combatant>, after: seq<Combatant>, skipDefeated: bool) {
    |after| == |before| &&
    forall i :: 0 <= i < |before| ==> after[i] == ResetValue(before[i], skipDefeated)
  }

  /**
   * After a reset, a combatant skipped as defeated has 0 activations, every
   * other one has its maximum (0 when unset, so the sentinel gets 0), all
   * maxima and ids are kept, and a consistent ledger stays consistent.
   */
  lemma ResetOutcome(before: seq<Combatant>, after: seq<Combatant>, skipDefeated: bool, i: nat)
    requires IsReset(before, after, skipDefeated) && i < |before|
    ensures after[i].id == before[i].id && after[i].activations.max == before[i].activations.max
    ensures skipDefeated && IsDefeated(before[i]) ==> after[i].activations.value == Some(0)
    ensures !(skipDefeated && IsDefeated(before[i])) ==>
              after[i].activations.value == Some(before[i].activations.max.GetOr(0))
    ensures before[i].dummy && before[i].activations.max == Some(0) ==>
              after[i].activations.value == Some(0)
    ensures Consistent(before[i].activations) ==> Consistent(after[i].activations)
  {
    ResetValueProperties(before[i], skipDefeated, before[i].id);
  }

  /** Whether a GM's `activateCombatant(id)` goes through: the combatant exists and its value is truthy. */
  predicate CanSpend(cs: seq<Combatant>, id: string) {
    var k := IndexOf(cs, id);
    k >= 0 && cs[k].activations.value.Some? && cs[k].activations.value.value != 0
  }

  /** Sorting keeps every combatant, so a combatant's id is found in the turn sequence. */
  lemma {:induction false} FoundInTurns(cs: seq<Combatant>, tieBreak: TieBreak, k: nat)
    requires k < |cs|
    ensures 0 <= IndexOf(SortTurns(cs, tieBreak), cs[k].id) < |cs|
  {
    SortTurnsCorrect(cs, tieBreak);
    var t := SortTurns(cs, tieBreak);
    assert cs[k] in multiset(t);
    var i :| 0 <= i < |t| && t[i] == cs[k];
  }

  class Combat {
    var round: int
    var turn: nat
    var combatants: seq<Combatant>
    /** The combat-tracker setting "skip defeated". */
    const skipDefeated: bool
    /** The host's own comparator, consulted on ties. */
    const tieBreak: TieBreak
    /** The `LancerCombatRequestActivate` events fired for this combat, by combatant id. */
    ghost var requests: seq<string>

    ghost predicate Valid()
      reads this
    {
      UniqueIds(combatants)
    }

    /** The turn sequence `turns`: the combatants in `_sortCombatants` order. */
    function Turns(): (t: seq<Combatant>)
      reads this
      ensures |t| == |combatants| && multiset(t) == multiset(combatants)
      ensures Ordered(t)
    {
      SortTurnsCorrect(combatants, tieBreak);
      SortTurns(combatants, tieBreak)
    }

    /** The host's construction of a combat from its initial combatants. */
    constructor (initial: seq<Combatant>, skipDefeated: bool, tieBreak: TieBreak)
      requires UniqueIds(initial)
      ensures Valid()
      ensures combatants == initial && round == 0 && turn == 0 && requests == []
      ensures this.skipDefeated == skipDefeated && this.tieBreak == tieBreak
    {
      combatants := initial;
      round, turn := 0, 0;
      this.skipDefeated := skipDefeated;
      this.tieBreak := tieBreak;
      requests := [];
    }

    /** With a sentinel present, turn pointer 0 designates a sentinel: nobody is acting. */
    lemma PointerZeroIsSentinel()
      requires HasDummy(combatants)
      ensures |Turns()| > 0 && Turns()[0].dummy
    {
      var k :| 0 <= k < |combatants| && combatants[k].dummy;
      SentinelFirst(combatants, tieBreak);
    }

    /** `_preCreate`: the sentinel is appended to the combatants before the combat is stored. */
    method PreCreate()
      requires Valid()
      modifies this
      ensures Valid()
      ensures combatants == WithDummy(old(combatants))
      ensures round == old(round) && turn == old(turn) && requests == old(requests)
    {
      WithDummyCorrect(combatants);
      combatants := combatants + [NewDummy(FreshId(combatants))];
    }

    /** `resetActivations`: one batched update resetting every combatant's value. */
    method ResetActivations()
      requires Valid()
      modifies this
      ensures Valid()
      ensures IsReset(old(combatants), combatants, skipDefeated)
      ensures round == old(round) && turn == old(turn) && requests == old(requests)
    {
      var updates: seq<Combatant> := [];
      var i := 0;
      while i < |combatants|
        invariant 0 <= i <= |combatants|
        invariant |updates| == i
        invariant forall j :: 0 <= j < i ==> updates[j] == ResetValue(combatants[j], skipDefeated)
      {
        updates := updates + [ResetValue(combatants[i], skipDefeated)];
        i := i + 1;
      }
      combatants := updates;
    }

    /** Applies one of the host's round transitions to the pointer. */
    method ApplyHost(host: HostStep)
      modifies this
      ensures Pointer(round, turn) == host(old(combatants), Pointer(old(round), old(turn)))
      ensures combatants == old(combatants) && requests == old(requests)
    {
      var p := host(combatants, Pointer(round, turn));
      round, turn := p.round, p.turn;
    }

    /** `startCombat`: reset, then the host's start. */
    method StartCombat(host: HostStep)
      requires Valid()
      modifies this
      ensures Valid()
      ensures IsReset(old(combatants), combatants, skipDefeated)
      ensures Pointer(round, turn) == host(combatants, Pointer(old(round), old(turn)))
      ensures requests == old(requests)
    {
      ResetActivations();
      ApplyHost(host);
    }

    /** `nextRound`: reset, then the host's round advance. */
    method NextRound(host: HostStep)
      requires Valid()
      modifies this
      ensures Valid()
      ensures IsReset(old(combatants), combatants, skipDefeated)
      ensures Pointer(round, turn) == host(combatants, Pointer(old(round), old(turn)))
      ensures requests == old(requests)
    {
      ResetActivations();
      ApplyHost(host);
    }

    /** `resetAll`: reset, then the host's full reset. */
    method ResetAll(host: HostStep)
      requires Valid()
      modifies this
      ensures Valid()
      ensures IsReset(old(combatants), combatants, skipDefeated)
      ensures Pointer(round, turn) == host(combatants, Pointer(old(round), old(turn)))
      ensures requests == old(requests)
    {
      ResetActivations();
      ApplyHost(host);
    }

    /** `nextTurn`: ends the current activation; the pointer returns to 0 and nothing else moves. */
    method NextTurn()
      modifies this
      ensures turn == 0
      ensures round == old(round) && combatants == old(combatants) && requests == old(requests)
    {
      turn := 0;
    }

    /**
     * `previousRound`: reset, step the round back without going below 0, and
     * clear the pointer. The returned time adjustment is minus one round's
     * duration when the new round is positive, else 0.
     */
    method PreviousRound(roundTime: int) returns (advanceTime: int)
      requires Valid()
      modifies this
      ensures Valid()
      ensures IsReset(old(combatants), combatants, skipDefeated)
      ensures round == Max(old(round) - 1, 0) && turn == 0
      ensures old(round) > 1 ==> round == old(round) - 1
      ensures old(round) <= 1 ==> round == 0
      ensures advanceTime == if round > 0 then -roundTime else 0
      ensures requests == old(requests)
    {
      ResetActivations();
      var r := Max(round - 1, 0);
      advanceTime := 0;
      if r > 0 {
        advanceTime := advanceTime - roundTime;
      }
      round, turn := r, 0;
    }

    /** `modifyCurrentActivations(num)` on the combatant at position `k`. */
    method ModifyCurrentActivations(k: nat, num: int)
      requires Valid() && k < |combatants|
      modifies this
      ensures Valid()
      ensures combatants == old(combatants)[k := old(combatants)[k].(
                activations := ModifyCurrent(old(combatants)[k].activations, num))]
      ensures round == old(round) && turn == old(turn) && requests == old(requests)
    {
      var c := combatants[k];
      combatants := combatants[k := c.(activations := ModifyCurrent(c.activations, num))];
    }

    /** `addActivations(num)` on the combatant at position `k`. */
    method AddActivations(k: nat, num: int)
      requires Valid() && k < |combatants|
      modifies this
      ensures Valid()
      ensures combatants == old(combatants)[k := old(combatants)[k].(
                activations := Ledger.AddActivations(old(combatants)[k].activations, num))]
      ensures round == old(round) && turn == old(turn) && requests == old(requests)
    {
      var c := combatants[k];
      combatants := combatants[k := c.(activations := Ledger.AddActivations(c.activations, num))];
    }

    /** `requestActivation`: fires the request event and changes nothing else. */
    method RequestActivation(id: string)
      modifies this
      ensures requests == old(requests) + [id]
      ensures round == old(round) && turn == old(turn) && combatants == old(combatants)
    {
      requests := requests + [id];
    }

    /**
     * `activateCombatant(id)`. A non-GM only fires a request. For a GM, a
     * missing combatant or one with no activation left is a no-op; otherwise
     * that combatant spends one activation and the pointer moves to it in the
     * turn sequence, and no other combatant changes.
     */
    method ActivateCombatant(id: string, user: User)
      requires Valid()
      modifies this
      ensures Valid()
      ensures round == old(round)
      ensures !user.isGM ==>
                combatants == old(combatants) && turn == old(turn) && requests == old(requests) + [id]
      ensures user.isGM ==> requests == old(requests)
      ensures user.isGM && !CanSpend(old(combatants), id) ==>
                combatants == old(combatants) && turn == old(turn)
      ensures user.isGM && CanSpend(old(combatants), id) ==>
                var k := IndexOf(old(combatants), id);
                combatants == old(combatants)[k := old(combatants)[k].(
                  activations := ModifyCurrent(old(combatants)[k].activations, -1))] &&
                turn == IndexOf(Turns(), id) && turn < |Turns()| && Turns()[turn].id == id
    {
      if !user.isGM {
        RequestActivation(id);
        return;
      }
      var k := IndexOf(combatants, id);
      if k < 0 || combatants[k].activations.value.None? || combatants[k].activations.value.value == 0 {
        return;
      }
      ModifyCurrentActivations(k, -1);
      FoundInTurns(combatants, tieBreak, k);
      turn := IndexOf(Turns(), id);
    }

    /**
     * `deactivateCombatant(id)`: when `id` is the combatant at the pointer and
     * the user owns it or is a GM, the pointer returns to 0; otherwise
     * nothing changes. The spent activation is never given back.
     */
    method DeactivateCombatant(id: string, user: User)
      modifies this
      ensures combatants == old(combatants) && round == old(round) && requests == old(requests)
      ensures var t := IndexOf(old(Turns()), id);
              if t == old(turn) && (IsOwner(old(Turns())[t], user) || user.isGM)
              then turn == 0 else turn == old(turn)
    {
      var t := IndexOf(Turns(), id);
      if t != turn {
        return;
      }
      if !IsOwner(Turns()[t], user) && !user.isGM {
        return;
      }
      NextTurn();
    }
  }

  /**
   * `addMissingDummy`: for a GM, every combat without a sentinel gets one;
   * combats that have one, and every combat when the user is not a GM, are
   * left as they were.
   */
  method AddMissingDummy(combats: seq<Combat>, user: User)
    requires forall i, j :: 0 <= i < j < |combats| ==> combats[i] != combats[j]
    requires forall i :: 0 <= i < |combats| ==> combats[i].Valid()
    modifies set c | c in combats
    ensures forall i :: 0 <= i < |combats| ==> combats[i].Valid()
    ensures !user.isGM ==> forall i :: 0 <= i < |combats| ==> combats[i].combatants == old(combats[i].combatants)
    ensures user.isGM ==> forall i :: 0 <= i < |combats| ==> combats[i].combatants == Backfill(old(combats[i].combatants))
    ensures forall i :: 0 <= i < |combats| ==>
              combats[i].round == old(combats[i].round) && combats[i].turn == old(combats[i].turn) &&
              combats[i].requests == old(combats[i].requests)
  {
    if !user.isGM {
      return;
    }
    var i := 0;
    while i < |combats|
      invariant 0 <= i <= |combats|
      invariant forall j :: 0 <= j < |combats| ==> combats[j].Valid()
      invariant forall j :: 0 <= j < i ==> combats[j].combatants == Backfill(old(combats[j].combatants))
      invariant forall j :: i <= j < |combats| ==> combats[j].combatants == old(combats[j].combatants)
      invariant forall j :: 0 <= j < |combats| ==>
                  combats[j].round == old(combats[j].round) && combats[j].turn == old(combats[j].turn) &&
                  combats[j].requests == old(combats[j].requests)
    {
      var combat := combats[i];
      BackfillCorrect(combat.combatants);
      if !HasDummy(combat.combatants) {
        // createEmbeddedDocuments("Combatant", [dummy])
        combat.combatants := WithDummy(combat.combatants);
      }
      i := i + 1;
    }
  }
}
