/**
 * What the collateral module consumes from the rest of the platform: the loan (an external
 * entity, read here for its status and its collection of attached links), the exceptions the
 * module raises, and the translation of storage integrity violations.
 */
module Platform {
  import opened Wrappers

  /** Lifecycle states of a loan; only the first one matters to this module. */
  datatype LoanStatus =
    | SubmittedAndPendingApproval
    | Approved
    | Active
    | WithdrawnByClient
    | Rejected
    | ClosedObligationsMet
    | ClosedWrittenOff
    | Overpaid
  {
    predicate IsSubmittedAndPendingApproval() {
      SubmittedAndPendingApproval?
    }
  }

  /** A loan as this module sees it: its status and the ids of the collateral links it holds. */
  datatype Loan = Loan(status: LoanStatus, collateral: set<int>)

  /** The entity whose lazy reference could not be initialised. */
  datatype Entity = CollateralEntity | CollateralBaseEntity

  /** The exceptions the collateral module raises or lets through. */
  datatype Error =
    | LoanNotFound(loanId: int)
      // CollateralNotFoundException, with the loan id when the caller knows it
    | CollateralNotFound(forLoan: Option<int>, collateralId: int)
      // a code value id that is not a value of the collateral code
    | CodeValueNotFound(codeValueId: int)
      // reason: the loan is not in the submitted-and-pending-approval stage
    | CannotBeUpdated(loanId: int)
    | CannotBeDeleted(loanId: int, collateralId: int)
      // raised by a repository reference (getOne) whose row does not exist
    | EntityNotFound(entity: Entity, id: int)
      // a dereference of a null entity reference
    | NullReference
      // a repository lookup given a null id, which the repository rejects as an illegal argument
    | NullIdentifier
    | DataIntegrity(code: string, message: string)

  /** A constraint of the relational schema that a save would break. */
  datatype IntegrityViolation = NotNullViolation(column: string)

  const UnknownIntegrityIssueCode := "error.msg.collateral.unknown.data.integrity.issue"
  const UnknownIntegrityIssueMessage := "Unknown data integrity issue with resource."

  /**
   * Every storage integrity violation is re-raised as the same generic platform error,
   * whatever the violated constraint, so that no schema detail reaches the caller.
   */
  function HandleCollateralDataIntegrityViolation(v: IntegrityViolation): (e: Error)
    ensures e.DataIntegrity?
    ensures e.code == UnknownIntegrityIssueCode && e.message == UnknownIntegrityIssueMessage
  {
    DataIntegrity(UnknownIntegrityIssueCode, UnknownIntegrityIssueMessage)
  }
}
