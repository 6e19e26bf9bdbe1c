/**
  Model of `cake_calculator` (icsc/ICSC_Qualification_Round_2025_Skeleton/problem_b.py):
  how many cakes of 100 flour and 50 sugar fit, and what is left over.
 */
module CakeCalculator {
  import opened Wrappers

  const FlourNeeded := 100
  const SugarNeeded := 50

  datatype Yield = Yield(cakes: nat, spareFlour: int, spareSugar: int)

  /** The source validates with an `assert` (an AssertionError, not a ValueError):
      negative flour or sugar fails, zero is accepted. */
  function CakeCalculator(flour: int, sugar: int): (r: Result<Yield>)
    ensures r.Failure? <==> flour < 0 || sugar < 0
    ensures r.Success? ==>
      && flour == FlourNeeded * r.value.cakes + r.value.spareFlour
      && sugar == SugarNeeded * r.value.cakes + r.value.spareSugar
      && 0 <= r.value.spareFlour && 0 <= r.value.spareSugar
      && (r.value.spareFlour < FlourNeeded || r.value.spareSugar < SugarNeeded)
  {
    if flour >= 0 && sugar >= 0 then
      var cakes := Min(flour / FlourNeeded, sugar / SugarNeeded);
      Success(Yield(cakes, flour - cakes * FlourNeeded, sugar - cakes * SugarNeeded))
    else
      Failure("Flour and sugar must be non-negative.")
  }

  /** No larger number of cakes fits the ingredients: the yield is the maximum. */
  lemma CakesMaximal(flour: int, sugar: int, k: int)
    requires CakeCalculator(flour, sugar).Success?
    requires FlourNeeded * k <= flour && SugarNeeded * k <= sugar
    ensures k <= CakeCalculator(flour, sugar).value.cakes
  {
  }
}
