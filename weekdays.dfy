/**
 * The days of the week as single-bit flags, as the dialog uses them: a muster
 * window's `days` is a bit mask with one bit per weekday, and `None` is the
 * empty mask. JavaScript's bitwise operators work on 32-bit integers, so the
 * mask is a `bv32`.
 */
module Weekdays {

  type Mask = bv32

  datatype Weekday = Sunday | Monday | Tuesday | Wednesday | Thursday | Friday | Saturday

  /** The empty mask: no day selected. */
  const NONE: Mask := 0

  /** The bit that stands for one day. */
  function Flag(d: Weekday): (f: Mask)
    ensures f != NONE
    ensures f & (f - 1) == 0
  {
    match d
    case Sunday => 1
    case Monday => 2
    case Tuesday => 4
    case Wednesday => 8
    case Thursday => 16
    case Friday => 32
    case Saturday => 64
  }

  /** Whether a day is selected in a mask. */
  predicate Has(mask: Mask, d: Weekday)
  {
    mask & Flag(d) != 0
  }

  /** The empty mask selects no day. */
  lemma NoneHasNoDay(d: Weekday)
    ensures !Has(NONE, d)
  {
  }

  /** The empty mask selects no day, for all days at once. */
  lemma NoDayInNone()
    ensures forall d :: !Has(NONE, d)
  {
    forall d ensures !Has(NONE, d) {
      NoneHasNoDay(d);
    }
  }

  /**
   * `mask ^= Flag(d)`: the toggle the day buttons perform. It flips the
   * selection of `d` and of no other day.
   */
  function Toggle(mask: Mask, d: Weekday): (r: Mask)
    ensures Has(r, d) <==> !Has(mask, d)
    ensures forall e :: e != d ==> (Has(r, e) <==> Has(mask, e))
  {
    XorFlag(mask, d);
    mask ^ Flag(d)
  }

  /** XOR-ing a day's flag flips that day's selection and no other day's. */
  lemma XorFlag(mask: Mask, d: Weekday)
    ensures Has(mask ^ Flag(d), d) <==> !Has(mask, d)
    ensures forall e :: e != d ==> (Has(mask ^ Flag(d), e) <==> Has(mask, e))
  {
    XorSameBit(mask, Flag(d));
    forall e | e != d
      ensures Has(mask ^ Flag(d), e) <==> Has(mask, e)
    {
      XorFlagOther(mask, d, e);
    }
  }

  /** XOR-ing a day's flag leaves another day's selection alone. */
  lemma XorFlagOther(mask: Mask, d: Weekday, e: Weekday)
    requires d != e
    ensures Has(mask ^ Flag(d), e) <==> Has(mask, e)
  {
    FlagsDisjoint(d, e);
    XorOtherBit(mask, Flag(d), Flag(e));
  }

  /** No two days share a bit. */
  lemma FlagsDisjoint(d: Weekday, e: Weekday)
    requires d != e
    ensures Flag(d) & Flag(e) == 0
  {
  }

  /** Flipping a single bit clears it exactly when it was set. */
  lemma XorSameBit(mask: Mask, f: Mask)
    requires f != NONE && f & (f - 1) == 0
    ensures (mask ^ f) & f != 0 <==> mask & f == 0
  {
  }

  /** Flipping bits leaves the bits outside them alone. */
  lemma XorOtherBit(mask: Mask, f: Mask, g: Mask)
    requires f & g == 0
    ensures (mask ^ f) & g != 0 <==> mask & g != 0
  {
  }

  /**
   * Toggling a day selects it when it was not selected, deselects it when it
   * was, and leaves every other day as it was: symmetric difference with {d}.
   */
  lemma ToggleBit(mask: Mask, d: Weekday, e: Weekday)
    ensures Has(Toggle(mask, d), e) <==> (Has(mask, e) != (d == e))
  {
    var f, g := Flag(d), Flag(e);
    if d == e {
      XorSameBit(mask, f);
    } else {
      FlagsDisjoint(d, e);
      XorOtherBit(mask, f, g);
    }
  }

  /** Toggling a day twice gives back the mask. */
  lemma ToggleInvolutive(mask: Mask, d: Weekday)
    ensures Toggle(Toggle(mask, d), d) == mask
  {
    var f := Flag(d);
    assert (mask ^ f) ^ f == mask ^ (f ^ f);
  }

  /** A toggle always changes the mask. */
  lemma ToggleChanges(mask: Mask, d: Weekday)
    ensures Toggle(mask, d) != mask
  {
    ToggleBit(mask, d, d);
  }
}
