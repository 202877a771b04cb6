/**
 * The link between a loan and a collateral definition, with the value and quantity pledged.
 * The loan and the collateral are held as ids (the loan_id and collateral_id columns), None
 * where the Java reference is null; value and quantity are None where the decimal is null.
 */
module LoanCollaterals {
  import opened Wrappers
  import opened Platform

  datatype LinkRow = LinkRow(loan: Option<int>, collateral: Option<int>, value: Option<real>, quantity: Option<real>)

  /** The keys of an update's change-set, in the order the change-set is filled. */
  datatype Param = CollateralTypeId | Quantity | Value

  datatype ParamValue = LongValue(n: int) | DecimalValue(d: real)

  /** The parameters an update command carries; None where a parameter is absent. */
  datatype UpdateCommand = UpdateCommand(collateralTypeId: Option<int>, quantity: Option<real>, value: Option<real>)

  /** The command carries a collateral id other than the linked collateral's id. */
  predicate CollateralDiffers(row: LinkRow, cmd: UpdateCommand)
    requires row.collateral.Some?
  {
    cmd.collateralTypeId.Some? && cmd.collateralTypeId.value != row.collateral.value
  }

  predicate QuantityDiffers(row: LinkRow, cmd: UpdateCommand) {
    cmd.quantity.Some? && cmd.quantity != row.quantity
  }

  predicate ValueDiffers(row: LinkRow, cmd: UpdateCommand) {
    cmd.value.Some? && cmd.value != row.value
  }

  /**
   * The change-set an update returns: exactly the parameters whose new value differs from the
   * stored one, each with its new value. Reading the id of a null collateral fails first.
   */
  function ChangeSet(row: LinkRow, cmd: UpdateCommand): (r: Result<map<Param, ParamValue>, Error>)
    ensures r.Failure? <==> row.collateral.None?
    ensures r.Failure? ==> r.error == NullReference
    ensures r.Success? ==> (CollateralTypeId in r.value <==> CollateralDiffers(row, cmd))
    ensures r.Success? ==> (Quantity in r.value <==> QuantityDiffers(row, cmd))
    ensures r.Success? ==> (Value in r.value <==> ValueDiffers(row, cmd))
    ensures r.Success? && CollateralTypeId in r.value ==> r.value[CollateralTypeId] == LongValue(cmd.collateralTypeId.value)
    ensures r.Success? && Quantity in r.value ==> r.value[Quantity] == DecimalValue(cmd.quantity.value)
    ensures r.Success? && Value in r.value ==> r.value[Value] == DecimalValue(cmd.value.value)
  {
    if row.collateral.None? then Failure(NullReference)
    else
      var withCollateral: map<Param, ParamValue> :=
        if CollateralDiffers(row, cmd) then map[CollateralTypeId := LongValue(cmd.collateralTypeId.value)] else map[];
      var withQuantity :=
        if QuantityDiffers(row, cmd) then withCollateral[Quantity := DecimalValue(cmd.quantity.value)] else withCollateral;
      var withValue :=
        if ValueDiffers(row, cmd) then withQuantity[Value := DecimalValue(cmd.value.value)] else withQuantity;
      Success(withValue)
  }

  /**
   * The link after a successful update: quantity and value take the command's value wherever
   * the command carries one; the loan and the collateral are never touched.
   */
  function Updated(row: LinkRow, cmd: UpdateCommand): (u: LinkRow)
    ensures u.loan == row.loan && u.collateral == row.collateral
    ensures u.quantity == if cmd.quantity.Some? then cmd.quantity else row.quantity
    ensures u.value == if cmd.value.Some? then cmd.value else row.value
  {
    row.(quantity := if QuantityDiffers(row, cmd) then cmd.quantity else row.quantity,
         value := if ValueDiffers(row, cmd) then cmd.value else row.value)
  }

  /** An update that reports no change leaves every field as it was. */
  lemma EmptyChangeSetLeavesLink(row: LinkRow, cmd: UpdateCommand)
    requires ChangeSet(row, cmd) == Success(map[])
    ensures Updated(row, cmd) == row
  {
    assert !QuantityDiffers(row, cmd) && !ValueDiffers(row, cmd);
  }

  /** Repeating an update finds nothing more to change in quantity and value. */
  lemma UpdateIsIdempotent(row: LinkRow, cmd: UpdateCommand)
    requires row.collateral.Some?
    ensures ChangeSet(Updated(row, cmd), cmd).Success?
    ensures Quantity !in ChangeSet(Updated(row, cmd), cmd).value
    ensures Value !in ChangeSet(Updated(row, cmd), cmd).value
    ensures Updated(Updated(row, cmd), cmd) == Updated(row, cmd)
  {
  }

  class LoanCollateral {
    var loan: Option<int>
    var collateral: Option<int>
    var value: Option<real>
    var quantity: Option<real>

    function Row(): LinkRow
      reads this
    {
      LinkRow(loan, collateral, value, quantity)
    }

    constructor (loan: Option<int>, collateral: Option<int>, value: Option<real>, quantity: Option<real>)
      ensures Row() == LinkRow(loan, collateral, value, quantity)
    {
      this.loan := loan;
      this.collateral := collateral;
      this.value := value;
      this.quantity := quantity;
    }

    /** A new link that belongs to no loan yet. */
    static method From(collateral: Option<int>, value: Option<real>, quantity: Option<real>) returns (link: LoanCollateral)
      ensures fresh(link)
      ensures link.Row() == LinkRow(None, collateral, value, quantity)
    {
      link := new LoanCollateral(None, collateral, value, quantity);
    }

    /** A new link whose value and quantity are the command's (None where absent). */
    static method FromJson(loan: Option<int>, collateral: Option<int>, cmd: UpdateCommand) returns (link: LoanCollateral)
      ensures fresh(link)
      ensures link.Row() == LinkRow(loan, collateral, cmd.value, cmd.quantity)
    {
      var quantity := cmd.quantity;
      var value := cmd.value;
      link := new LoanCollateral(loan, collateral, value, quantity);
    }

    method AssembleFrom(collateral: Option<int>, value: Option<real>, quantity: Option<real>)
      modifies this
      ensures Row() == LinkRow(old(loan), collateral, value, quantity)
    {
      this.collateral := collateral;
      this.quantity := quantity;
      this.value := value;
    }

    method AssociateWith(loan: Option<int>)
      modifies this
      ensures Row() == old(Row()).(loan := loan)
    {
      this.loan := loan;
    }

    /**
     * Field-level diff: records every parameter that differs from the stored value, and
     * overwrites quantity and value in place; a changed collateral id is only recorded.
     */
    method Update(cmd: UpdateCommand) returns (changes: Result<map<Param, ParamValue>, Error>)
      modifies this
      ensures changes == ChangeSet(old(Row()), cmd)
      ensures Row() == if changes.Success? then Updated(old(Row()), cmd) else old(Row())
    {
      if collateral.None? {
        return Failure(NullReference);
      }
      var actualChanges: map<Param, ParamValue> := map[];
      if cmd.collateralTypeId.Some? && cmd.collateralTypeId.value != collateral.value {
        actualChanges := actualChanges[CollateralTypeId := LongValue(cmd.collateralTypeId.value)];
      }
      if cmd.quantity.Some? && cmd.quantity != quantity {
        actualChanges := actualChanges[Quantity := DecimalValue(cmd.quantity.value)];
        quantity := cmd.quantity;
      }
      if cmd.value.Some? && cmd.value != value {
        actualChanges := actualChanges[Value := DecimalValue(cmd.value.value)];
        value := cmd.value;
      }
      changes := Success(actualChanges);
    }

    method SetCollateral(collateral: Option<int>)
      modifies this
      ensures Row() == old(Row()).(collateral := collateral)
    {
      this.collateral := collateral;
    }
  }
}
