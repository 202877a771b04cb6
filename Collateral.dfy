/**
 * A collateral definition: a reference to its base entry, a quality standard and a
 * percentage of the base price. The reference is the base entry's id (the base_id column),
 * None where the Java reference is null.
 */
module Collaterals {
  import opened Wrappers

  datatype CollateralRow = CollateralRow(base: Option<int>, quality: string, pctToBase: real)

  class Collateral {
    var base: Option<int>
    var quality: string
    var pctToBase: real

    function Row(): CollateralRow
      reads this
    {
      CollateralRow(base, quality, pctToBase)
    }

    function GetBase(): Option<int>
      reads this
    {
      base
    }

    function GetQuality(): string
      reads this
    {
      quality
    }

    function GetPctToBase(): real
      reads this
    {
      pctToBase
    }

    constructor (base: Option<int>, quality: string, pctToBase: real)
      ensures GetBase() == base && GetQuality() == quality && GetPctToBase() == pctToBase
      ensures Row() == CollateralRow(base, quality, pctToBase)
    {
      this.base := base;
      this.quality := quality;
      this.pctToBase := pctToBase;
    }

    method SetQuality(quality: string)
      modifies this
      ensures GetQuality() == quality
      ensures GetBase() == old(GetBase()) && GetPctToBase() == old(GetPctToBase())
    {
      this.quality := quality;
    }

    method SetPctToBase(pctToBase: real)
      modifies this
      ensures GetPctToBase() == pctToBase
      ensures GetBase() == old(GetBase()) && GetQuality() == old(GetQuality())
    {
      this.pctToBase := pctToBase;
    }
  }
}
