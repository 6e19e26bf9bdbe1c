/**
  Model of `optimal_cakes` (icsc/semifinal/problem_a1.py): recipe A takes 100 flour,
  50 sugar and 20 eggs, recipe B 50 flour, 100 sugar and 30 eggs; the result is the
  least possible sum of leftover ingredients.
 */
module OptimalCakes {
  import opened Wrappers

  /** `x` cakes of recipe A and `y` of recipe B can be baked together. */
  predicate Fits(flour: int, sugar: int, eggs: int, x: int, y: int)
  {
    0 <= x && 0 <= y &&
    100 * x + 50 * y <= flour && 50 * x + 100 * y <= sugar && 20 * x + 30 * y <= eggs
  }

  /** Ingredients consumed by `x` cakes of A and `y` of B. */
  function Usage(x: int, y: int): int
  {
    170 * x + 180 * y
  }

  function Min3(a: int, b: int, c: int): int
  {
    Min(Min(a, b), c)
  }

  /** `y <= a / d` for every `y` whose `d` multiples fit in `a` (for the divisors used here). */
  lemma DivBound(a: int, d: int, y: int)
    requires d == 20 || d == 30 || d == 50 || d == 100
    requires 0 <= y && d * y <= a
    ensures y <= a / d
  {
    if d == 20 {
      assert 20 * y <= a;
    } else if d == 30 {
      assert 30 * y <= a;
    } else if d == 50 {
      assert 50 * y <= a;
    } else {
      assert 100 * y <= a;
    }
  }

  /** For `x` cakes of recipe A that fit, the recipe-B count the loop computes fits
      with it, and no larger recipe-B count does. */
  lemma RecipeBBound(flour: int, sugar: int, eggs: int, x: int, ymax: int)
    requires 0 <= x && 100 * x <= flour && 50 * x <= sugar && 20 * x <= eggs
    requires ymax == Min3((flour - 100 * x) / 50, (sugar - 50 * x) / 100, (eggs - 20 * x) / 30)
    ensures ymax >= 0 && Fits(flour, sugar, eggs, x, ymax)
    ensures forall y :: Fits(flour, sugar, eggs, x, y) ==> y <= ymax
  {
    forall y | Fits(flour, sugar, eggs, x, y)
      ensures y <= ymax
    {
      DivBound(flour - 100 * x, 50, y);
      DivBound(sugar - 50 * x, 100, y);
      DivBound(eggs - 20 * x, 30, y);
    }
  }

  /** Every recipe-A count the loop tries leaves every remainder non-negative. */
  lemma TriedCountFits(flour: int, sugar: int, eggs: int, x: int)
    requires 0 <= x <= Min3(flour / 100, sugar / 50, eggs / 20)
    ensures 100 * x <= flour && 50 * x <= sugar && 20 * x <= eggs
  {
    assert 100 * (flour / 100) <= flour && 50 * (sugar / 50) <= sugar && 20 * (eggs / 20) <= eggs;
  }

  /** Every feasible recipe-A count is within the loop's range. */
  lemma RecipeABound(flour: int, sugar: int, eggs: int, x: int, y: int)
    requires Fits(flour, sugar, eggs, x, y)
    ensures x <= Min3(flour / 100, sugar / 50, eggs / 20)
  {
    DivBound(flour, 100, x);
    DivBound(sugar, 50, x);
    DivBound(eggs, 20, x);
  }

  /** Any input that is not positive raises a ValueError; otherwise the loop over the
      number of recipe-A cakes keeps the best usage, and the waste is what it leaves. */
  method OptimalCakes(flour: int, sugar: int, eggs: int) returns (r: Result<int>)
    ensures r.Failure? <==> flour <= 0 || sugar <= 0 || eggs <= 0
    ensures r.Success? ==> 0 <= r.value <= flour + sugar + eggs
    ensures r.Success? ==>
      forall x, y :: Fits(flour, sugar, eggs, x, y) ==> r.value <= flour + sugar + eggs - Usage(x, y)
    ensures r.Success? ==>
      exists x, y :: Fits(flour, sugar, eggs, x, y) && r.value == flour + sugar + eggs - Usage(x, y)
  {
    if flour <= 0 || sugar <= 0 || eggs <= 0 {
      return Failure("Inputs must be positive integers.");
    }
    var totalAvailable := flour + sugar + eggs;
    var maxX := Min3(flour / 100, sugar / 50, eggs / 20);
    var bestUsage := -1;
    ghost var bestX, bestY := 0, 0;
    for x := 0 to maxX + 1
      invariant x == 0 ==> bestUsage == -1
      invariant x > 0 ==> Fits(flour, sugar, eggs, bestX, bestY) && bestUsage == Usage(bestX, bestY)
      invariant forall x', y' :: 0 <= x' < x && Fits(flour, sugar, eggs, x', y') ==> Usage(x', y') <= bestUsage
    {
      TriedCountFits(flour, sugar, eggs, x);
      var yByFlour := (flour - 100 * x) / 50;
      var yBySugar := (sugar - 50 * x) / 100;
      var yByEggs := (eggs - 20 * x) / 30;
      var ymax := Min3(yByFlour, yBySugar, yByEggs);
      RecipeBBound(flour, sugar, eggs, x, ymax);
      if ymax < 0 {
        continue;
      }
      var usage := 170 * x + 180 * ymax;
      if usage > bestUsage {
        bestUsage := usage;
        bestX, bestY := x, ymax;
      }
    }
    forall x', y' | Fits(flour, sugar, eggs, x', y')
      ensures x' <= maxX
    {
      RecipeABound(flour, sugar, eggs, x', y');
    }
    r := Success(totalAvailable - bestUsage);
  }
}
