/**
 * The per-combatant activation ledger `{max?, value?}` and the arithmetic of
 * its two mutators, `addActivations` and `modifyCurrentActivations`.
 * An unset field is `None`; a combatant with no ledger flag at all reads as
 * `Unset` (the getter's `?? {}`).
 */
module Ledger {
  import opened Wrappers

  datatype Activations = Activations(max: Option<int>, value: Option<int>)

  /** The ledger of a combatant that has never been given one. */
  const Unset := Activations(None, None)

  /** `Math.clamped(x, lo, hi)`, which the host defines as `min(hi, max(x, lo))`. */
  function Clamp(x: int, lo: int, hi: int): (r: int)
    ensures lo <= hi ==> lo <= r <= hi
    ensures lo <= x <= hi ==> r == x
    ensures lo <= hi && x < lo ==> r == lo
    ensures x > hi ==> r == hi
    ensures lo > hi ==> r == hi
  {
    var y := if x < lo then lo else x;
    if y < hi then y else hi
  }

  /** `Math.max(a, b)`. */
  function Max(a: int, b: int): (r: int)
    ensures r >= a && r >= b && (r == a || r == b)
  {
    if a >= b then a else b
  }

  /**
   * The ledger invariant the mutators keep: `max`, when set, is not negative,
   * and the current value lies between 0 and the maximum, reading an unset
   * value as 0 and an unset maximum as 1 (the defaults the mutators use).
   */
  predicate Consistent(a: Activations) {
    (a.max.Some? ==> a.max.value >= 0) &&
    0 <= a.value.GetOr(0) <= a.max.GetOr(1)
  }

  /**
   * `modifyCurrentActivations(num)`: a no-op for `num == 0`; otherwise the
   * value moves by `num` and is clamped into `[0, max ?? 1]`; `max` is kept
   * (the host merges the written object into the stored flag).
   */
  function ModifyCurrent(a: Activations, num: int): (r: Activations)
    ensures num == 0 ==> r == a
    ensures r.max == a.max
    ensures num != 0 ==> r.value.Some?
    ensures num != 0 && a.max.GetOr(1) >= 0 ==> 0 <= r.value.value <= a.max.GetOr(1)
    ensures num != 0 && 0 <= a.value.GetOr(0) + num <= a.max.GetOr(1) ==>
              r.value == Some(a.value.GetOr(0) + num)
    ensures num != 0 && a.value.GetOr(0) + num < 0 <= a.max.GetOr(1) ==> r.value == Some(0)
    ensures num != 0 && a.value.GetOr(0) + num > a.max.GetOr(1) ==> r.value == Some(a.max.GetOr(1))
    ensures num != 0 && a.max.GetOr(1) < 0 ==> r.value == Some(a.max.GetOr(1))
  {
    if num == 0 then a
    else a.(value := Some(Clamp(a.value.GetOr(0) + num, 0, a.max.GetOr(1))))
  }

  /**
   * `addActivations(num)`: a no-op for `num == 0`; otherwise both fields move
   * by `num`, the maximum floored at 1 (reading unset as 1) and the value
   * floored at 0 (reading unset as 0). Both fields are written.
   */
  function AddActivations(a: Activations, num: int): (r: Activations)
    ensures num == 0 ==> r == a
    ensures num != 0 ==> r.max.Some? && r.value.Some?
    ensures num != 0 ==> r.max.value >= 1 && r.value.value >= 0
    ensures num != 0 ==> r.max.value >= a.max.GetOr(1) + num && r.value.value >= a.value.GetOr(0) + num
    ensures num != 0 && a.max.GetOr(1) + num >= 1 ==> r.max == Some(a.max.GetOr(1) + num)
    ensures num != 0 && a.value.GetOr(0) + num >= 0 ==> r.value == Some(a.value.GetOr(0) + num)
    ensures num != 0 && a.max.GetOr(1) + num < 1 ==> r.max == Some(1)
    ensures num != 0 && a.value.GetOr(0) + num < 0 ==> r.value == Some(0)
  {
    if num == 0 then a
    else Activations(Some(Max(a.max.GetOr(1) + num, 1)), Some(Max(a.value.GetOr(0) + num, 0)))
  }

  /** Spending or granting current activations never breaks the ledger invariant. */
  lemma ModifyCurrentKeepsConsistent(a: Activations, num: int)
    requires Consistent(a)
    ensures Consistent(ModifyCurrent(a, num))
  {
  }

  /** Growing or shrinking the pool never breaks the ledger invariant. */
  lemma AddActivationsKeepsConsistent(a: Activations, num: int)
    requires Consistent(a)
    ensures Consistent(AddActivations(a, num))
  {
  }

  /**
   * Spending one activation from a consistent ledger whose value is set and
   * non-zero lowers it by exactly one.
   */
  lemma SpendOneLowersByOne(a: Activations)
    requires Consistent(a)
    requires a.value.Some? && a.value.value != 0
    ensures ModifyCurrent(a, -1) == a.(value := Some(a.value.value - 1))
  {
  }

  /**
   * `modifyCurrentActivations` is undone by its opposite when neither call is
   * clamped.
   */
  lemma ModifyCurrentInverse(a: Activations, num: int)
    requires a.value.Some? && num != 0
    requires 0 <= a.value.value <= a.max.GetOr(1)
    requires 0 <= a.value.value + num <= a.max.GetOr(1)
    ensures ModifyCurrent(ModifyCurrent(a, num), -num) == a
  {
  }

  /** `addActivations` is undone by its opposite when neither floor applies. */
  lemma AddActivationsInverse(a: Activations, num: int)
    requires a.max.Some? && a.value.Some? && num != 0
    requires a.max.value >= 1 && a.value.value >= 0
    requires a.max.value + num >= 1 && a.value.value + num >= 0
    ensures AddActivations(AddActivations(a, num), -num) == a
  {
  }

  /** Clamping is idempotent: a second clamp into the same range changes nothing. */
  lemma ClampIdempotent(x: int, lo: int, hi: int)
    requires lo <= hi
    ensures Clamp(Clamp(x, lo, hi), lo, hi) == Clamp(x, lo, hi)
  {
  }
}
