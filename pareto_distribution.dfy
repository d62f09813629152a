/**
 * The parameters of a Pareto probability distribution: slope and minimum of
 * the distribution, plus an artificial floor and ceiling used when clipping.
 * The bound setters only accept a value on the right side of the minimum.
 */
module Pareto {

  import opened Doubles

  /** Which sign the drawn values may take. */
  datatype Polarity = Excitatory | Inhibitory | Both

  /** The ceiling setUpperBound leaves behind: the new one only above the minimum. */
  function AcceptedCeil(ceiling: Double, min: Double, ceil: Double): (r: Double)
    ensures Greater(ceiling, min) ==> r == ceiling
    ensures !Greater(ceiling, min) ==> r == ceil
  {
    if Greater(ceiling, min) then ceiling else ceil
  }

  /** The floor setLowerBound leaves behind: the new one only at or above the minimum. */
  function AcceptedFloor(floor': Double, min: Double, floor: Double): (r: Double)
    ensures AtLeast(floor', min) ==> r == floor'
    ensures !AtLeast(floor', min) ==> r == floor
  {
    if AtLeast(floor', min) then floor' else floor
  }

  /** The floor is not below the minimum and the ceiling is above it. */
  predicate BoundsRespect(min: Double, floor: Double, ceil: Double)
  {
    AtLeast(floor, min) && Greater(ceil, min)
  }

  /** Neither guarded setter can take a bound across the minimum. */
  lemma AcceptedBoundsKeepInvariant(min: Double, floor: Double, ceil: Double, floor': Double, ceiling: Double)
    requires BoundsRespect(min, floor, ceil)
    ensures BoundsRespect(min, AcceptedFloor(floor', min, floor), ceil)
    ensures BoundsRespect(min, floor, AcceptedCeil(ceiling, min, ceil))
  {
  }

  /** A NaN bound is always refused: every comparison with NaN is false. */
  lemma NaNBoundsRefused(min: Double, floor: Double, ceil: Double)
    ensures AcceptedFloor(NaN, min, floor) == floor
    ensures AcceptedCeil(NaN, min, ceil) == ceil
  {
    NaNComparesFalse(min);
  }

  /** The defaults satisfy the invariant: floor 1.0 >= min 1.0 and +inf > 1.0. */
  lemma DefaultsRespectBounds()
    ensures BoundsRespect(Finite(1.0), Finite(1.0), PositiveInfinity)
  {
  }

  class ParetoDistribution {
    var slope: Double
    var min: Double
    var floor: Double
    var ceil: Double
    var clipping: bool
    var polarity: Polarity

    /** The field initialisers: slope 2, minimum 1, floor 1, ceiling +inf, no clipping, both signs. */
    constructor ()
      ensures slope == Finite(2.0) && min == Finite(1.0) && floor == Finite(1.0)
      ensures ceil == PositiveInfinity && !clipping && polarity == Both
      ensures BoundsRespectMin()
    {
      slope := Finite(2.0);
      min := Finite(1.0);
      floor := Finite(1.0);
      ceil := PositiveInfinity;
      clipping := false;
      polarity := Both;
    }

    ghost predicate BoundsRespectMin()
      reads this
    {
      BoundsRespect(min, floor, ceil)
    }

    method SetSlope(slope: Double)
      modifies this`slope
      ensures this.slope == slope
    {
      this.slope := slope;
    }

    /** Unguarded: the floor and ceiling are not re-checked against the new minimum. */
    method SetMin(min: Double)
      modifies this`min
      ensures this.min == min
    {
      this.min := min;
    }

    method SetClipping(clipping: bool)
      modifies this`clipping
      ensures this.clipping == clipping
    {
      this.clipping := clipping;
    }

    method SetPolarity(polarity: Polarity)
      modifies this`polarity
      ensures this.polarity == polarity
    {
      this.polarity := polarity;
    }

    /** Takes the ceiling only when it is strictly above the minimum; touches nothing else. */
    method SetUpperBound(ceiling: Double)
      modifies this`ceil
      ensures ceil == AcceptedCeil(ceiling, min, old(ceil))
      ensures old(BoundsRespectMin()) ==> BoundsRespectMin()
    {
      if Greater(ceiling, min) {
        ceil := ceiling;
      }
    }

    /** Takes the floor only when it is at or above the minimum; touches nothing else. */
    method SetLowerBound(floor: Double)
      modifies this`floor
      ensures this.floor == AcceptedFloor(floor, min, old(this.floor))
      ensures old(BoundsRespectMin()) ==> BoundsRespectMin()
    {
      if AtLeast(floor, min) {
        this.floor := floor;
      }
    }

    /** The property-editor alias of setUpperBound. */
    method SetCeil(ceiling: Double)
      modifies this`ceil
      ensures ceil == AcceptedCeil(ceiling, min, old(ceil))
      ensures old(BoundsRespectMin()) ==> BoundsRespectMin()
    {
      SetUpperBound(ceiling);
    }

    /** The property-editor alias of setLowerBound. */
    method SetFloor(floor: Double)
      modifies this`floor
      ensures this.floor == AcceptedFloor(floor, min, old(this.floor))
      ensures old(BoundsRespectMin()) ==> BoundsRespectMin()
    {
      SetLowerBound(floor);
    }

    /**
     * A new distribution with this one's slope, minimum, floor, ceiling and
     * clipping flag; polarity is not copied and stays at its default.
     */
    method DeepCopy() returns (copy: ParetoDistribution)
      ensures fresh(copy)
      ensures copy.slope == slope && copy.min == min && copy.floor == floor
      ensures copy.ceil == ceil && copy.clipping == clipping
      ensures copy.polarity == Both
    {
      copy := new ParetoDistribution();
      copy.slope := slope;
      copy.min := min;
      copy.floor := floor;
      copy.ceil := ceil;
      copy.clipping := clipping;
    }
  }

  /**
   * setMin re-checks nothing: raising the minimum of a default distribution
   * to 2 leaves its floor of 1 below it.
   */
  method SetMinCanBreakBounds() returns (d: ParetoDistribution)
    ensures fresh(d) && d.min == Finite(2.0) && d.floor == Finite(1.0)
    ensures !d.BoundsRespectMin()
  {
    d := new ParetoDistribution();
    d.SetMin(Finite(2.0));
  }

  /** Configures one product in place and hands out that same product. */
  class ParetoDistributionBuilder {
    const product: ParetoDistribution

    constructor ()
      ensures fresh(product)
      ensures product.slope == Finite(2.0) && product.min == Finite(1.0) && product.floor == Finite(1.0)
      ensures product.ceil == PositiveInfinity && !product.clipping && product.polarity == Both
    {
      product := new ParetoDistribution();
    }

    method Slope(slope: Double) returns (self: ParetoDistributionBuilder)
      modifies product`slope
      ensures self == this && product.slope == slope
    {
      product.SetSlope(slope);
      self := this;
    }

    method Min(min: Double) returns (self: ParetoDistributionBuilder)
      modifies product`min
      ensures self == this && product.min == min
    {
      product.SetMin(min);
      self := this;
    }

    method Build() returns (p: ParetoDistribution)
      ensures p == product
    {
      p := product;
    }
  }
}
