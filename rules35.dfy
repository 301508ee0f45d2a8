/** The D&D 3.5 rules arithmetic of js/modules/rules35.js. */
module Rules35 {
  import opened Wrappers

  /** `Math.floor((score - 10) / 2)`, read literally: the real quotient,
      rounded down. */
  function GetModifier(score: int): (m: int)
    ensures 2 * m <= score - 10 < 2 * m + 2
  {
    ((score - 10) as real / 2.0).Floor
  }

  /** The fields `calculateAC` may find on its argument; a field the object
      does not carry is `None`. */
  datatype AcData = AcData(
    dexMod: Option<int>,
    armor: Option<int>,
    shield: Option<int>,
    natural: Option<int>,
    size: Option<int>)

  /** `field || 0` on a numeric field. */
  function OrZero(field: Option<int>): int {
    field.GetOr(0)
  }

  /** Armour class: base 10 plus dexterity, armour and shield. */
  function CalculateAC(data: AcData): (ac: int)
  {
    10 + OrZero(data.dexMod) + OrZero(data.armor) + OrZero(data.shield)
  }

  /** Scores 10 and 11 give 0, 9 gives -1, 18 gives 4. */
  lemma GetModifierExamples()
    ensures GetModifier(10) == 0 && GetModifier(11) == 0
    ensures GetModifier(9) == -1 && GetModifier(18) == 4
    ensures GetModifier(3) == -4 && GetModifier(1) == -5
  {
  }

  /** A higher score never gives a lower modifier. */
  lemma GetModifierMonotone(a: int, b: int)
    requires a <= b
    ensures GetModifier(a) <= GetModifier(b)
  {
  }

  /** Two more points of score give exactly one more point of modifier. */
  lemma GetModifierStep(score: int)
    ensures GetModifier(score + 2) == GetModifier(score) + 1
  {
  }

  /** The modifier is the integer floor of half the distance from 10, for
      negative distances too (Dafny's Euclidean division agrees with
      `Math.floor` when the divisor is 2). */
  lemma GetModifierIsFloorDivision(score: int)
    ensures GetModifier(score) == (score - 10) / 2
  {
  }

  /** The object with no fields has armour class 10. */
  lemma CalculateACOfEmpty()
    ensures CalculateAC(AcData(None, None, None, None, None)) == 10
  {
  }

  /** Natural armour and size, although named in the comment of the source,
      never change the result. */
  lemma CalculateACIgnoresNaturalAndSize(data: AcData, natural: Option<int>, size: Option<int>)
    ensures CalculateAC(data.(natural := natural, size := size)) == CalculateAC(data)
  {
  }

  /** Raising any one of the three counted fields by `d` raises the armour
      class by exactly `d`. */
  lemma CalculateACShift(data: AcData, d: int)
    ensures CalculateAC(data.(dexMod := Some(OrZero(data.dexMod) + d))) == CalculateAC(data) + d
    ensures CalculateAC(data.(armor := Some(OrZero(data.armor) + d))) == CalculateAC(data) + d
    ensures CalculateAC(data.(shield := Some(OrZero(data.shield) + d))) == CalculateAC(data) + d
  {
  }

  /** Larger bonuses never give a lower armour class, and with no penalty
      among the present fields the armour class is at least the base 10. */
  lemma CalculateACMonotone(a: AcData, b: AcData)
    requires OrZero(a.dexMod) <= OrZero(b.dexMod)
    requires OrZero(a.armor) <= OrZero(b.armor)
    requires OrZero(a.shield) <= OrZero(b.shield)
    ensures CalculateAC(a) <= CalculateAC(b)
    ensures OrZero(a.dexMod) >= 0 && OrZero(a.armor) >= 0 && OrZero(a.shield) >= 0 ==> CalculateAC(b) >= 10
  {
  }

  /** An explicit 0 and a missing field contribute the same. */
  lemma CalculateACZeroIsMissing(data: AcData)
    ensures CalculateAC(data.(dexMod := Some(0), armor := Some(0), shield := Some(0)))
         == CalculateAC(data.(dexMod := None, armor := None, shield := None))
  {
  }
}
