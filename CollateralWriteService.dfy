/**
 * The collateral write service: attaching valued collateral to a loan, creating collateral
 * definitions and base entries, editing a loan's collateral link and a definition, and
 * detaching a link from a loan. The committed tables are maps from id to row; an operation
 * loads the entities it needs into fresh objects, changes them through their setters and
 * writes them back. A failed operation leaves every table as it was, as the surrounding
 * transaction does.
 */
module WriteService {
  import opened Wrappers
  import opened Platform
  import opened DecimalText
  import opened Collaterals
  import opened CollateralBases
  import opened LoanCollaterals
  import opened Valuation

  /** The ids and the change-set an operation reports. */
  datatype CommandResult = CommandResult(entityId: int, loanId: Option<int>, changes: map<Param, ParamValue>)

  /** addCollateral's payload: the collateral type and, when the member is present, the detail lines. */
  datatype AddCollateralCommand = AddCollateralCommand(typeCvId: int, collateralDetails: Option<seq<CollateralDetail>>)

  /** addCollateralV2's payload. */
  datatype AddCollateralV2Command = AddCollateralV2Command(baseId: int, qualityStandard: string, percentageToBase: real)

  /** addCollateralBase's payload. */
  datatype AddCollateralBaseCommand = AddCollateralBaseCommand(typeCvId: int, basePrice: real)

  /** updateCollateralV2's payload: the raw text, and the two members it may carry. */
  datatype UpdateCollateralV2Command = UpdateCollateralV2Command(json: string, pctToBase: Option<real>, qualityStandard: Option<string>)

  /** The raw payload that updateCollateralV2 treats as "nothing to change". */
  const EmptyObject: string := "{}"

  /** The tables a write goes to. */
  datatype Table = LinkTable | CollateralTable | BaseTable

  /** One write sent to the storage layer, in the order sent. */
  datatype Write = Saved(table: Table, id: int) | Deleted(table: Table, id: int)

  /** The valuation of a request: zero and the empty description when it carries no detail lines. */
  function AppraiseRequest(details: Option<seq<CollateralDetail>>, collaterals: map<int, CollateralRow>, bases: map<int, BaseRow>): (r: Result<Appraisal, Error>)
    ensures details.None? ==> r == Success(Appraisal(0.0, ""))
  {
    if details.Some? then Appraise(details.value, collaterals, bases) else Success(Appraisal(0.0, ""))
  }

  /**
   * What a successful valuation of a request means: the total is the sum of the line values
   * and the description the in-order concatenation of the line tokens, both empty without lines.
   */
  lemma AppraiseRequestIsSumAndTokens(details: Option<seq<CollateralDetail>>, collaterals: map<int, CollateralRow>, bases: map<int, BaseRow>)
    requires AppraiseRequest(details, collaterals, bases).Success?
    ensures var a := AppraiseRequest(details, collaterals, bases).value;
      var lines := if details.Some? then details.value else [];
      && AllResolve(lines, collaterals, bases)
      && a.value == TotalValue(lines, collaterals, bases)
      && a.description == Description(lines)
  {
    if details.Some? {
      AppraiseIsSum(details.value, collaterals, bases);
      AppraiseIsTokens(details.value, collaterals, bases);
    }
  }

  /** A definition after updateCollateralV2: each member present in the payload replaces its field. */
  function Patched(row: CollateralRow, cmd: UpdateCollateralV2Command): (p: CollateralRow)
    ensures p.base == row.base
    ensures p.pctToBase == if cmd.pctToBase.Some? then cmd.pctToBase.value else row.pctToBase
    ensures p.quality == if cmd.qualityStandard.Some? then cmd.qualityStandard.value else row.quality
  {
    var withPct := if cmd.pctToBase.Some? then row.(pctToBase := cmd.pctToBase.value) else row;
    if cmd.qualityStandard.Some? then withPct.(quality := cmd.qualityStandard.value) else withPct
  }

  /** A payload carrying neither member changes nothing, and applying a payload twice is applying it once. */
  lemma PatchedIsIdempotent(row: CollateralRow, cmd: UpdateCollateralV2Command)
    ensures cmd.pctToBase.None? && cmd.qualityStandard.None? ==> Patched(row, cmd) == row
    ensures Patched(Patched(row, cmd), cmd) == Patched(row, cmd)
  {
  }

  class CollateralWriteService {
    /** The loans, external to this module; only their collections of links change here. */
    var loans: map<int, Loan>
    var links: map<int, LinkRow>
    var collaterals: map<int, CollateralRow>
    var bases: map<int, BaseRow>
    /** The values of the collateral code. */
    const collateralTypes: set<int>
    /** The next id each table's sequence hands out. */
    var nextLinkId: int
    var nextCollateralId: int
    var nextBaseId: int
    /** The writes sent to storage so far. */
    ghost var writes: seq<Write>

    /**
     * The schema's constraints hold: ids come from the sequences, every definition refers to a
     * base entry, every base entry has a collateral type, and every link belongs to a loan. A
     * loan's collection of links is the set of links whose loan column names it.
     */
    predicate Valid()
      reads this
    {
      && (forall k :: k in links ==> k < nextLinkId)
      && (forall k :: k in collaterals ==> k < nextCollateralId)
      && (forall k :: k in bases ==> k < nextBaseId)
      && (forall k :: k in collaterals ==> collaterals[k].base.Some? && collaterals[k].base.value in bases)
      && (forall k :: k in bases ==> bases[k].collateralType in collateralTypes)
      && (forall k :: k in links ==> links[k].loan.Some? && links[k].loan.value in loans)
      && (forall k :: k in links ==> k in loans[links[k].loan.value].collateral)
      && (forall l, k :: l in loans && k in loans[l].collateral ==> k in links && links[k].loan == Some(l))
    }

    /** A store with the given loans and code values, and no collateral yet. */
    constructor (loans: map<int, Loan>, collateralTypes: set<int>)
      requires forall l :: l in loans ==> loans[l].collateral == {}
      ensures Valid()
      ensures this.loans == loans && this.collateralTypes == collateralTypes
      ensures links == map[] && collaterals == map[] && bases == map[] && writes == []
    {
      this.loans := loans;
      this.collateralTypes := collateralTypes;
      links, collaterals, bases := map[], map[], map[];
      nextLinkId, nextCollateralId, nextBaseId := 1, 1, 1;
      writes := [];
    }

    /** The worth of one detail line, read through the definition and base entry it refers to. */
    method LineValueOf(d: CollateralDetail) returns (r: Result<real, Error>)
      ensures r == LineOf(d, collaterals, bases)
    {
      if d.collateralId !in collaterals {
        return Failure(EntityNotFound(CollateralEntity, d.collateralId));
      }
      var row := collaterals[d.collateralId];
      var c := new Collateral(row.base, row.quality, row.pctToBase);
      var pctToBase := c.GetPctToBase();
      var baseRef := c.GetBase();
      if baseRef.None? {
        return Failure(NullReference);
      }
      var baseId := baseRef.value;
      if baseId !in bases {
        return Failure(EntityNotFound(CollateralBaseEntity, baseId));
      }
      var baseRow := bases[baseId];
      var base := new CollateralBase(baseRow.collateralType, baseRow.basePrice);
      var baseValue := base.GetBasePrice();
      baseValue := baseValue * (d.units as real);
      baseValue := baseValue * (pctToBase / 100.0);
      assert baseValue == LineValue(baseRow.basePrice, d.units, row.pctToBase);
      r := Success(baseValue);
    }

    /**
     * Attaches collateral to a loan: values the detail lines, then stores a link holding the
     * loan and the total value. The loan's status is not checked.
     */
    method AddCollateral(loanId: int, cmd: AddCollateralCommand) returns (r: Result<CommandResult, Error>, appraisal: Appraisal)
      requires Valid()
      modifies this
      ensures Valid()
      ensures loanId !in old(loans) ==> r == Failure(LoanNotFound(loanId))
      ensures loanId in old(loans) && AppraiseRequest(cmd.collateralDetails, old(collaterals), old(bases)).Failure? ==>
        r == Failure(AppraiseRequest(cmd.collateralDetails, old(collaterals), old(bases)).error)
      ensures loanId in old(loans) && AppraiseRequest(cmd.collateralDetails, old(collaterals), old(bases)).Success? ==>
        appraisal == AppraiseRequest(cmd.collateralDetails, old(collaterals), old(bases)).value &&
        if cmd.typeCvId in collateralTypes then r == Success(CommandResult(old(nextLinkId), Some(loanId), map[]))
        else r == Failure(CodeValueNotFound(cmd.typeCvId))
      ensures r.Failure? ==> unchanged(this)
      ensures r.Success? ==>
        && old(nextLinkId) !in old(links)
        && links == old(links)[old(nextLinkId) := LinkRow(Some(loanId), None, Some(appraisal.value), None)]
        && nextLinkId == old(nextLinkId) + 1 && writes == old(writes) + [Saved(LinkTable, old(nextLinkId))]
        && loans == old(loans)[loanId := old(loans)[loanId].(collateral := old(loans)[loanId].collateral + {old(nextLinkId)})]
        && collaterals == old(collaterals) && bases == old(bases)
        && nextCollateralId == old(nextCollateralId) && nextBaseId == old(nextBaseId)
    {
      appraisal := Appraisal(0.0, "");
      if loanId !in loans {
        return Failure(LoanNotFound(loanId)), appraisal;
      }
      var loanValue := 0.0;
      var description := "";
      if cmd.collateralDetails.Some? {
        var details := cmd.collateralDetails.value;
        for i := 0 to |details|
          invariant unchanged(this)
          invariant Appraise(details[..i], collaterals, bases) == Success(Appraisal(loanValue, description))
        {
          assert details[..i + 1][..i] == details[..i];
          var line := LineValueOf(details[i]);
          if line.Failure? {
            AppraiseFailurePersists(details, i + 1, collaterals, bases);
            return Failure(line.error), appraisal;
          }
          loanValue := loanValue + line.value;
          description := description + Token(details[i]);
        }
        assert details[..|details|] == details;
      }
      appraisal := Appraisal(loanValue, description);
      if cmd.typeCvId !in collateralTypes {
        return Failure(CodeValueNotFound(cmd.typeCvId)), appraisal;
      }
      var link := new LoanCollateral(Some(loanId), None, Some(loanValue), None);
      var id := InsertLink(link);
      r := Success(CommandResult(id, Some(loanId), map[]));
    }

    /**
     * Saves a new link under the next id of its sequence; its loan is never null here, and the
     * link joins that loan's collection.
     */
    method InsertLink(link: LoanCollateral) returns (id: int)
      requires Valid() && link.loan.Some? && link.loan.value in loans
      modifies this
      ensures Valid()
      ensures id == old(nextLinkId) && id !in old(links)
      ensures links == old(links)[id := link.Row()] && nextLinkId == id + 1
      ensures writes == old(writes) + [Saved(LinkTable, id)]
      ensures var l := link.loan.value; loans == old(loans)[l := old(loans)[l].(collateral := old(loans)[l].collateral + {id})]
      ensures collaterals == old(collaterals) && bases == old(bases)
      ensures nextCollateralId == old(nextCollateralId) && nextBaseId == old(nextBaseId)
    {
      id := nextLinkId;
      var loanId := link.loan.value;
      links := links[id := link.Row()];
      loans := loans[loanId := loans[loanId].(collateral := loans[loanId].collateral + {id})];
      nextLinkId := nextLinkId + 1;
      writes := writes + [Saved(LinkTable, id)];
    }

    /**
     * Saves a definition, new under the next id or over an existing one. A null base breaks
     * the not-null constraint on base_id, and nothing is written.
     */
    method SaveCollateral(c: Collateral, existing: Option<int>) returns (id: int, violation: Option<IntegrityViolation>)
      requires Valid() && (existing.Some? ==> existing.value in collaterals)
      requires c.base.Some? ==> c.base.value in bases
      modifies this
      ensures violation.Some? <==> c.base.None?
      ensures violation.Some? ==> violation.value == NotNullViolation("base_id") && unchanged(this)
      ensures id == if existing.Some? then existing.value else old(nextCollateralId)
      ensures violation.None? ==>
        && Valid()
        && collaterals == old(collaterals)[id := c.Row()]
        && nextCollateralId == (if existing.Some? then old(nextCollateralId) else old(nextCollateralId) + 1)
        && writes == old(writes) + [Saved(CollateralTable, id)]
        && loans == old(loans) && links == old(links) && bases == old(bases)
        && nextLinkId == old(nextLinkId) && nextBaseId == old(nextBaseId)
    {
      id := if existing.Some? then existing.value else nextCollateralId;
      if c.base.None? {
        return id, Some(NotNullViolation("base_id"));
      }
      violation := None;
      collaterals := collaterals[id := c.Row()];
      if existing.None? {
        nextCollateralId := nextCollateralId + 1;
      }
      writes := writes + [Saved(CollateralTable, id)];
    }

    /**
     * Creates a collateral definition over a base entry. An unknown base id yields a null base,
     * which the storage layer rejects; the violation is re-raised as the generic integrity error.
     */
    method AddCollateralV2(cmd: AddCollateralV2Command) returns (r: Result<CommandResult, Error>)
      requires Valid()
      modifies this
      ensures Valid()
      ensures cmd.baseId !in old(bases) ==>
        r == Failure(HandleCollateralDataIntegrityViolation(NotNullViolation("base_id"))) && unchanged(this)
      ensures cmd.baseId in old(bases) ==>
        && r == Success(CommandResult(old(nextCollateralId), None, map[]))
        && old(nextCollateralId) !in old(collaterals)
        && collaterals == old(collaterals)[old(nextCollateralId) := CollateralRow(Some(cmd.baseId), cmd.qualityStandard, cmd.percentageToBase)]
        && nextCollateralId == old(nextCollateralId) + 1
        && writes == old(writes) + [Saved(CollateralTable, old(nextCollateralId))]
        && loans == old(loans) && links == old(links) && bases == old(bases)
        && nextLinkId == old(nextLinkId) && nextBaseId == old(nextBaseId)
    {
      var collateralBase: Option<int> := if cmd.baseId in bases then Some(cmd.baseId) else None;
      var collateral := new Collateral(collateralBase, cmd.qualityStandard, cmd.percentageToBase);
      var id, violation := SaveCollateral(collateral, None);
      if violation.Some? {
        return Failure(HandleCollateralDataIntegrityViolation(violation.value));
      }
      r := Success(CommandResult(id, None, map[]));
    }

    /** Creates a base entry of a collateral type; the type must be a value of the collateral code. */
    method AddCollateralBase(cmd: AddCollateralBaseCommand) returns (r: Result<CommandResult, Error>)
      requires Valid()
      modifies this
      ensures Valid()
      ensures cmd.typeCvId !in collateralTypes ==> r == Failure(CodeValueNotFound(cmd.typeCvId)) && unchanged(this)
      ensures cmd.typeCvId in collateralTypes ==>
        && r == Success(CommandResult(old(nextBaseId), None, map[]))
        && old(nextBaseId) !in old(bases)
        && bases == old(bases)[old(nextBaseId) := BaseRow(cmd.typeCvId, cmd.basePrice)]
        && nextBaseId == old(nextBaseId) + 1
        && writes == old(writes) + [Saved(BaseTable, old(nextBaseId))]
        && loans == old(loans) && links == old(links) && collaterals == old(collaterals)
        && nextLinkId == old(nextLinkId) && nextCollateralId == old(nextCollateralId)
    {
      if cmd.typeCvId !in collateralTypes {
        return Failure(CodeValueNotFound(cmd.typeCvId));
      }
      var collateralBase := new CollateralBase(cmd.typeCvId, cmd.basePrice);
      var id := nextBaseId;
      bases := bases[id := collateralBase.Row()];
      nextBaseId := nextBaseId + 1;
      writes := writes + [Saved(BaseTable, id)];
      r := Success(CommandResult(id, None, map[]));
    }

    /**
     * Edits a link's quantity and value. The link is found by id alone. A change of collateral
     * id is reported and its type looked up, but not applied to the link. The edit is refused
     * unless the loan is submitted and pending approval, and it is saved only when the
     * change-set is not empty.
     */
    method UpdateCollateral(loanId: int, collateralId: int, cmd: UpdateCommand) returns (r: Result<CommandResult, Error>)
      requires Valid()
      modifies this
      ensures Valid()
      ensures r.Failure? ==> unchanged(this)
      ensures loanId !in old(loans) ==> r == Failure(LoanNotFound(loanId))
      ensures loanId in old(loans) && collateralId !in old(links) ==> r == Failure(CollateralNotFound(Some(loanId), collateralId))
      ensures loanId in old(loans) && collateralId in old(links) ==>
        var changes := ChangeSet(old(links)[collateralId], cmd);
        && (changes.Failure? ==> r == Failure(changes.error))
        && (changes.Success? && CollateralTypeId in changes.value && cmd.collateralTypeId.value !in collateralTypes ==>
              r == Failure(CodeValueNotFound(cmd.collateralTypeId.value)))
        && (changes.Success? && (CollateralTypeId in changes.value ==> cmd.collateralTypeId.value in collateralTypes) ==>
              if !old(loans)[loanId].status.IsSubmittedAndPendingApproval() then r == Failure(CannotBeUpdated(loanId))
              else
                && r == Success(CommandResult(collateralId, Some(loanId), changes.value))
                && links == old(links)[collateralId := Updated(old(links)[collateralId], cmd)]
                && writes == old(writes) + (if changes.value == map[] then [] else [Saved(LinkTable, collateralId)])
                && loans == old(loans) && collaterals == old(collaterals) && bases == old(bases)
                && nextLinkId == old(nextLinkId) && nextCollateralId == old(nextCollateralId) && nextBaseId == old(nextBaseId))
    {
      if loanId !in loans {
        return Failure(LoanNotFound(loanId));
      }
      var loan := loans[loanId];
      if collateralId !in links {
        return Failure(CollateralNotFound(Some(loanId), collateralId));
      }
      var row := links[collateralId];
      var collateralForUpdate := new LoanCollateral(row.loan, row.collateral, row.value, row.quantity);
      var changes := collateralForUpdate.Update(cmd);
      if changes.Failure? {
        return Failure(changes.error);
      }
      if CollateralTypeId in changes.value && cmd.collateralTypeId.value !in collateralTypes {
        return Failure(CodeValueNotFound(cmd.collateralTypeId.value));
      }
      if !loan.status.IsSubmittedAndPendingApproval() {
        return Failure(CannotBeUpdated(loanId));
      }
      if changes.value != map[] {
        links := links[collateralId := collateralForUpdate.Row()];
        writes := writes + [Saved(LinkTable, collateralId)];
      } else {
        EmptyChangeSetLeavesLink(row, cmd);
      }
      r := Success(CommandResult(collateralId, Some(loanId), changes.value));
    }

    /**
     * Partial edit of a definition. The payload "{}" is a no-op that writes nothing, even for
     * an unknown id; any other payload replaces the members it carries and saves the
     * definition, and an unknown id is then a null dereference.
     */
    method UpdateCollateralV2(collateralId: int, cmd: UpdateCollateralV2Command) returns (r: Result<CommandResult, Error>)
      requires Valid()
      modifies this
      ensures Valid()
      ensures cmd.json == EmptyObject ==> r == Success(CommandResult(collateralId, None, map[])) && unchanged(this)
      ensures cmd.json != EmptyObject && collateralId !in old(collaterals) ==> r == Failure(NullReference) && unchanged(this)
      ensures cmd.json != EmptyObject && collateralId in old(collaterals) ==>
        && r == Success(CommandResult(collateralId, None, map[]))
        && collaterals == old(collaterals)[collateralId := Patched(old(collaterals)[collateralId], cmd)]
        && writes == old(writes) + [Saved(CollateralTable, collateralId)]
        && loans == old(loans) && links == old(links) && bases == old(bases)
        && nextLinkId == old(nextLinkId) && nextCollateralId == old(nextCollateralId) && nextBaseId == old(nextBaseId)
    {
      var collateral: Collateral? := null;
      if collateralId in collaterals {
        var row := collaterals[collateralId];
        collateral := new Collateral(row.base, row.quality, row.pctToBase);
      }
      if cmd.json != EmptyObject {
        if collateral == null {
          return Failure(NullReference);
        }
        if cmd.pctToBase.Some? {
          collateral.SetPctToBase(cmd.pctToBase.value);
        }
        if cmd.qualityStandard.Some? {
          collateral.SetQuality(cmd.qualityStandard.value);
        }
        var id, violation := SaveCollateral(collateral, Some(collateralId));
      }
      r := Success(CommandResult(collateralId, None, map[]));
    }

    /**
     * Detaches a link from its loan: the link must belong to the loan, and the loan must be
     * submitted and pending approval. The link leaves the loan's collection and its table.
     */
    method DeleteCollateral(loanId: int, collateralId: int) returns (r: Result<CommandResult, Error>)
      requires Valid()
      modifies this
      ensures Valid()
      ensures r.Failure? ==> unchanged(this)
      ensures loanId !in old(loans) ==> r == Failure(LoanNotFound(loanId))
      ensures loanId in old(loans) && (collateralId !in old(links) || old(links)[collateralId].loan != Some(loanId)) ==>
        r == Failure(CollateralNotFound(Some(loanId), collateralId))
      ensures loanId in old(loans) && collateralId in old(links) && old(links)[collateralId].loan == Some(loanId) ==>
        if !old(loans)[loanId].status.IsSubmittedAndPendingApproval() then r == Failure(CannotBeDeleted(loanId, collateralId))
        else
          && r == Success(CommandResult(collateralId, Some(loanId), map[]))
          && loans == old(loans)[loanId := old(loans)[loanId].(collateral := old(loans)[loanId].collateral - {collateralId})]
          && links == old(links) - {collateralId}
          && writes == old(writes) + [Deleted(LinkTable, collateralId)]
          && collaterals == old(collaterals) && bases == old(bases)
          && nextLinkId == old(nextLinkId) && nextCollateralId == old(nextCollateralId) && nextBaseId == old(nextBaseId)
    {
      if loanId !in loans {
        return Failure(LoanNotFound(loanId));
      }
      var loan := loans[loanId];
      if collateralId !in links || links[collateralId].loan != Some(loanId) {
        return Failure(CollateralNotFound(Some(loanId), collateralId));
      }
      if !loan.status.IsSubmittedAndPendingApproval() {
        return Failure(CannotBeDeleted(loanId, collateralId));
      }
      loans := loans[loanId := loan.(collateral := loan.collateral - {collateralId})];
      links := links - {collateralId};
      writes := writes + [Deleted(LinkTable, collateralId)];
      r := Success(CommandResult(collateralId, Some(loanId), map[]));
    }
  }
}
