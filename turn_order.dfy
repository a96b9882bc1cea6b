/**
 * The order of the tracker: `_sortCombatants` and the turn sequence the host
 * builds with it, plus `findIndex` by id.
 *
 * The host's own comparator (`super._sortCombatants`) is the uninterpreted
 * `tieBreak`; the host's sort is modelled as a stable insertion sort. Every
 * property below is stated for the order the comparator fixes regardless of
 * the tie-break (sentinel first, then disposition descending), which any
 * correct sort produces.
 */
module TurnOrder {
  import opened Combatants

  type TieBreak = (Combatant, Combatant) -> int

  /** `_sortCombatants(a, b)`: negative puts `a` first, positive puts `b` first. */
  function Compare(a: Combatant, b: Combatant, tieBreak: TieBreak): int {
    if a.dummy then -1
    else if b.dummy then 1
    else
      var dc := Disposition(b) - Disposition(a);
      if dc != 0 then dc else tieBreak(a, b)
  }

  /**
   * The order the comparator fixes: a sentinel goes before everything, and a
   * non-sentinel goes before another non-sentinel of no higher disposition.
   */
  predicate Precedes(a: Combatant, b: Combatant) {
    a.dummy || (!b.dummy && Disposition(a) >= Disposition(b))
  }

  /** `s` is ordered: every element precedes every later one. */
  predicate Ordered(s: seq<Combatant>) {
    forall i, j :: 0 <= i < j < |s| ==> Precedes(s[i], s[j])
  }

  /**
   * The comparator agrees with `Precedes`, and the host's tie-break is only
   * consulted between two non-sentinels of equal disposition.
   */
  lemma CompareAgrees(a: Combatant, b: Combatant, tieBreak: TieBreak)
    ensures a.dummy ==> Compare(a, b, tieBreak) == -1
    ensures !a.dummy && b.dummy ==> Compare(a, b, tieBreak) == 1
    ensures !a.dummy && !b.dummy && Disposition(a) != Disposition(b) ==>
              (Compare(a, b, tieBreak) < 0 <==> Disposition(a) > Disposition(b)) &&
              Compare(a, b, tieBreak) == Disposition(b) - Disposition(a)
    ensures Compare(a, b, tieBreak) != tieBreak(a, b) ==>
              a.dummy || b.dummy || Disposition(a) != Disposition(b)
    ensures Compare(a, b, tieBreak) <= 0 ==> Precedes(a, b)
    ensures Compare(a, b, tieBreak) > 0 ==> Precedes(b, a)
  {
  }

  /** Insertion of `x` before the first element it does not come after. */
  function Insert(x: Combatant, s: seq<Combatant>, tieBreak: TieBreak): seq<Combatant>
  {
    if s == [] then [x]
    else if Compare(x, s[0], tieBreak) <= 0 then [x] + s
    else [s[0]] + Insert(x, s[1..], tieBreak)
  }

  /** The turn sequence: the combatants sorted with `_sortCombatants`. */
  function SortTurns(cs: seq<Combatant>, tieBreak: TieBreak): seq<Combatant>
  {
    if cs == [] then []
    else Insert(cs[0], SortTurns(cs[1..], tieBreak), tieBreak)
  }

  /** Insertion adds exactly `x` and keeps an ordered sequence ordered. */
  lemma {:induction false} InsertCorrect(x: Combatant, s: seq<Combatant>, tieBreak: TieBreak)
    requires Ordered(s)
    ensures multiset(Insert(x, s, tieBreak)) == multiset(s) + multiset{x}
    ensures Ordered(Insert(x, s, tieBreak))
  {
    if s == [] {
    } else if Compare(x, s[0], tieBreak) <= 0 {
      CompareAgrees(x, s[0], tieBreak);
      var r := [x] + s;
      forall i, j | 0 <= i < j < |r| ensures Precedes(r[i], r[j]) {
        if i == 0 && j > 1 { assert Precedes(s[0], s[j - 1]); }
      }
    } else {
      CompareAgrees(x, s[0], tieBreak);
      assert s == [s[0]] + s[1..];
      InsertCorrect(x, s[1..], tieBreak);
      var t := Insert(x, s[1..], tieBreak);
      var r := [s[0]] + t;
      forall j | 0 <= j < |t| ensures Precedes(s[0], t[j]) {
        assert t[j] in multiset(t);
        if t[j] != x {
          assert t[j] in multiset(s[1..]);
          var k :| 0 <= k < |s[1..]| && s[1..][k] == t[j];
          assert s[k + 1] == t[j] && Precedes(s[0], s[k + 1]);
        }
      }
      forall i, j | 0 <= i < j < |r| ensures Precedes(r[i], r[j]) {
        if i == 0 { assert r[j] == t[j - 1]; }
        else { assert r[i] == t[i - 1] && r[j] == t[j - 1]; }
      }
    }
  }

  /** The turn sequence is a permutation of the combatants, in the comparator's order. */
  lemma {:induction false} SortTurnsCorrect(cs: seq<Combatant>, tieBreak: TieBreak)
    ensures multiset(SortTurns(cs, tieBreak)) == multiset(cs)
    ensures |SortTurns(cs, tieBreak)| == |cs|
    ensures Ordered(SortTurns(cs, tieBreak))
  {
    if cs != [] {
      SortTurnsCorrect(cs[1..], tieBreak);
      InsertCorrect(cs[0], SortTurns(cs[1..], tieBreak), tieBreak);
      assert cs == [cs[0]] + cs[1..];
    }
    assert |SortTurns(cs, tieBreak)| == |multiset(SortTurns(cs, tieBreak))|;
  }

  /** The number of sentinels in a sequence. */
  function CountDummies(s: seq<Combatant>): (n: nat)
    ensures n <= |s|
    ensures n == 0 <==> forall i :: 0 <= i < |s| ==> !s[i].dummy
  {
    if s == [] then 0 else (if s[0].dummy then 1 else 0) + CountDummies(s[1..])
  }

  /**
   * When the combatants include a sentinel, a sentinel heads the turn
   * sequence; with exactly one sentinel it is the only one, so the
   * non-sentinels after it come in non-increasing disposition.
   */
  lemma {:induction false} SentinelFirst(cs: seq<Combatant>, tieBreak: TieBreak)
    requires CountDummies(cs) >= 1
    ensures |SortTurns(cs, tieBreak)| == |cs| && SortTurns(cs, tieBreak)[0].dummy
    ensures CountDummies(cs) == 1 ==>
              forall i :: 0 < i < |cs| ==> !SortTurns(cs, tieBreak)[i].dummy
    ensures CountDummies(cs) == 1 ==>
              forall i, j :: 0 < i < j < |cs| ==>
                Disposition(SortTurns(cs, tieBreak)[i]) >= Disposition(SortTurns(cs, tieBreak)[j])
  {
    var t := SortTurns(cs, tieBreak);
    SortTurnsCorrect(cs, tieBreak);
    SortTurnsCount(cs, tieBreak);
    var k :| 0 <= k < |t| && t[k].dummy;
    if k > 0 { assert Precedes(t[0], t[k]); }
    if CountDummies(cs) == 1 {
      forall i | 0 < i < |cs| ensures !t[i].dummy {
        if t[i].dummy { CountTwo(t, 0, i); }
      }
    }
  }

  /** Insertion adds one sentinel exactly when `x` is one. */
  lemma {:induction false} InsertCount(x: Combatant, s: seq<Combatant>, tieBreak: TieBreak)
    ensures CountDummies(Insert(x, s, tieBreak)) == CountDummies(s) + (if x.dummy then 1 else 0)
  {
    if s != [] && Compare(x, s[0], tieBreak) > 0 {
      InsertCount(x, s[1..], tieBreak);
      assert ([s[0]] + Insert(x, s[1..], tieBreak))[1..] == Insert(x, s[1..], tieBreak);
    } else if s != [] {
      assert ([x] + s)[1..] == s;
    }
  }

  /** Sorting neither adds nor drops a sentinel. */
  lemma {:induction false} SortTurnsCount(cs: seq<Combatant>, tieBreak: TieBreak)
    ensures CountDummies(SortTurns(cs, tieBreak)) == CountDummies(cs)
  {
    if cs != [] {
      SortTurnsCount(cs[1..], tieBreak);
      InsertCount(cs[0], SortTurns(cs[1..], tieBreak), tieBreak);
    }
  }

  /** Two sentinels at distinct positions make the count at least two. */
  lemma {:induction false} CountTwo(s: seq<Combatant>, i: nat, j: nat)
    requires i < j < |s| && s[i].dummy && s[j].dummy
    ensures CountDummies(s) >= 2
  {
    if i > 0 {
      CountTwo(s[1..], i - 1, j - 1);
    } else {
      assert s[1..][j - 1].dummy;
    }
  }

  /**
   * `findIndex` by id: the first position holding `id`, or -1 when no
   * element has it.
   */
  function IndexOf(s: seq<Combatant>, id: string): (r: int)
    ensures -1 <= r < |s|
    ensures r == -1 <==> forall i :: 0 <= i < |s| ==> s[i].id != id
    ensures r >= 0 ==> s[r].id == id && forall i :: 0 <= i < r ==> s[i].id != id
  {
    if s == [] then -1
    else if s[0].id == id then 0
    else
      var k := IndexOf(s[1..], id);
      if k == -1 then -1 else k + 1
  }
}
