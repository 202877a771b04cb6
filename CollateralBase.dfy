/**
 * A collateral base entry: a collateral type (a value of the collateral code) and the unit
 * base price of that type. The committed form is a BaseRow; a CollateralBase object is the
 * in-memory entity, loaded from a row and written back when saved.
 */
module CollateralBases {

  /** One committed row: the code value id of the type and the base price. */
  datatype BaseRow = BaseRow(collateralType: int, basePrice: real)

  class CollateralBase {
    var collateralType: int
    var basePrice: real

    function Row(): BaseRow
      reads this
    {
      BaseRow(collateralType, basePrice)
    }

    function GetBasePrice(): real
      reads this
    {
      basePrice
    }

    constructor (collateralType: int, basePrice: real)
      ensures Row() == BaseRow(collateralType, basePrice)
      ensures GetBasePrice() == basePrice
    {
      this.collateralType := collateralType;
      this.basePrice := basePrice;
    }

    /** Despite its name, this replaces the base price; the type is untouched. */
    method SetPctToBase(pctToBase: real)
      modifies this
      ensures GetBasePrice() == pctToBase
      ensures Row() == old(Row()).(basePrice := pctToBase)
      ensures collateralType == old(collateralType)
    {
      basePrice := pctToBase;
    }
  }
}
