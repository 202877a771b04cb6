# Fineract loan collateral, modelled in Dafny

This project models the collateral module of the Apache Fineract lending platform. It has three layers.

1. **Entities.**
   - A *collateral base entry* is a collateral type with a unit base price.
   - A *collateral definition* is a reference to a base entry, a quality standard and a percentage of the base price.
   - A *loan collateral link* ties a loan to a definition, with a pledged value and quantity.
2. **Write service.**
   - It attaches valued collateral to a loan.
   - It creates definitions and base entries.
   - It edits a link or a definition.
   - It detaches a link from a loan.
3. **Assembler.** It turns the `collateral` array of a loan request into the set of links to attach.

The committed tables are maps from id to row inside the write service. An operation loads the entities it needs into fresh objects, changes them through their methods and writes them back. A failed operation leaves every table as it was, as the surrounding transaction does.

Java references are held as ids, `None` where the reference is null, and `BigDecimal` is `real`. Decimal arithmetic is exact, so the valuation has no rounding.

Modules, one per file:
- `Wrappers`: Option and Result.
- `Platform`: the loan as this module sees it, the errors raised, and the integrity-violation translation.
- `DecimalText`: decimal text of a long, and its inverse.
- `Collaterals` and `CollateralBases`: the two catalog entities.
- `LoanCollaterals`: the link entity and its field-level diff.
- `Valuation`: the value and description of a list of detail lines.
- `Assembler`: request-to-link assembly.
- `WriteService`: the write operations.

Proved properties:
- The loan value computed by `addCollateral` starts at zero. It is the sum of basePrice × units × pctToBase / 100 over the lines.
- The description is the in-order concatenation of one `<id>C<-><units>U,` token per line. Each number's text parses back to that number, and a token determines its line's id and units.
- The first line that does not resolve decides the error, and no partial result is stored.
- Link updates report exactly the fields that differ. They apply only quantity and value, and repeating one changes nothing more.
- Edits and deletes of a link are refused unless the loan is submitted and pending approval. A delete removes the link from the loan's collection and from the table.
- A loan's collection of links is always the set of links whose loan column names it: attaching adds the new link to it and detaching removes it.
- `updateCollateralV2` with the payload `{}` writes nothing. Otherwise exactly the members present change.
- Assembly fails exactly when an entry has no definition id or names an unknown link id, and then at the first such entry.
  - New links are those of the entries without an id, in order, and belong to no loan.
  - Every stored link an entry names is overwritten, keeps its loan and takes its fields from the last entry naming it.
  - The result holds at most one object per entry, and distinct entries' new links are distinct objects.

## Model

| member | source | states |
|---|---|---|
| Platform.HandleCollateralDataIntegrityViolation | fineract-provider/src/main/java/org/apache/fineract/portfolio/collateral/service/CollateralWritePlatformServiceJpaRepositoryImpl.java:323-327 | every integrity violation, whatever the constraint, becomes the one generic data-integrity error with the fixed code and message |
| DecimalText.NatToString | fineract-provider/src/main/java/org/apache/fineract/portfolio/collateral/service/CollateralWritePlatformServiceJpaRepositoryImpl.java:126 | the decimal text of a non-negative number is non-empty, all digits, with no leading zero |
| DecimalText.LongToString | fineract-provider/src/main/java/org/apache/fineract/portfolio/collateral/service/CollateralWritePlatformServiceJpaRepositoryImpl.java:126 | the text of a long starts with a minus sign exactly when the long is negative, followed by digits only |
| DecimalText.LongToStringRoundTrip | fineract-provider/src/main/java/org/apache/fineract/portfolio/collateral/service/CollateralWritePlatformServiceJpaRepositoryImpl.java:126 | the text written into the description parses back to the same long, so ids and units are recorded exactly |
| Collaterals.Collateral.constructor | fineract-provider/src/main/java/org/apache/fineract/portfolio/collateral/domain/Collateral.java:38-42 | a new definition stores exactly the given base, quality and percentage, and the getters return them |
| Collaterals.Collateral.SetQuality | fineract-provider/src/main/java/org/apache/fineract/portfolio/collateral/domain/Collateral.java:48-50 | only the quality changes; base and percentage are untouched |
| Collaterals.Collateral.SetPctToBase | fineract-provider/src/main/java/org/apache/fineract/portfolio/collateral/domain/Collateral.java:52-54 | only the percentage changes; base and quality are untouched |
| CollateralBases.CollateralBase.constructor | fineract-provider/src/main/java/org/apache/fineract/portfolio/collateral/domain/CollateralBase.java:35-38 | a new base entry stores exactly the given type and base price, and getBasePrice returns that price |
| CollateralBases.CollateralBase.SetPctToBase | fineract-provider/src/main/java/org/apache/fineract/portfolio/collateral/domain/CollateralBase.java:40-46 | despite its name it overwrites the base price, which getBasePrice then returns; the type is untouched |
| LoanCollaterals.ChangeSet | fineract-provider/src/main/java/org/apache/fineract/portfolio/collateral/domain/LoanCollateral.java:93-118 | the change-set holds the collateral, quantity and value keys exactly when the command carries a differing value, each with the command's value; a null collateral makes the diff fail |
| LoanCollaterals.Updated | fineract-provider/src/main/java/org/apache/fineract/portfolio/collateral/domain/LoanCollateral.java:103-115 | after an update, quantity and value are the command's wherever it carries one; loan and collateral are never touched |
| LoanCollaterals.EmptyChangeSetLeavesLink | fineract-provider/src/main/java/org/apache/fineract/portfolio/collateral/domain/LoanCollateral.java:93-118 | an update that reports no change leaves every field as it was |
| LoanCollaterals.UpdateIsIdempotent | fineract-provider/src/main/java/org/apache/fineract/portfolio/collateral/domain/LoanCollateral.java:103-115 | repeating an update finds nothing more to change in quantity and value and leaves the link as the first update left it |
| LoanCollaterals.LoanCollateral.constructor | fineract-provider/src/main/java/org/apache/fineract/portfolio/collateral/domain/LoanCollateral.java:70-75 | a new link holds exactly the given loan, collateral, value and quantity |
| LoanCollaterals.LoanCollateral.From | fineract-provider/src/main/java/org/apache/fineract/portfolio/collateral/domain/LoanCollateral.java:62-64 | a fresh link with no loan and exactly the given collateral, value and quantity |
| LoanCollaterals.LoanCollateral.FromJson | fineract-provider/src/main/java/org/apache/fineract/portfolio/collateral/domain/LoanCollateral.java:87-91 | a fresh link for the given loan and collateral, with the command's value and quantity |
| LoanCollaterals.LoanCollateral.AssembleFrom | fineract-provider/src/main/java/org/apache/fineract/portfolio/collateral/domain/LoanCollateral.java:77-81 | collateral, quantity and value are overwritten; the loan is kept |
| LoanCollaterals.LoanCollateral.AssociateWith | fineract-provider/src/main/java/org/apache/fineract/portfolio/collateral/domain/LoanCollateral.java:83-85 | only the loan changes |
| LoanCollaterals.LoanCollateral.Update | fineract-provider/src/main/java/org/apache/fineract/portfolio/collateral/domain/LoanCollateral.java:93-118 | the change-set returned is ChangeSet of the old link; on success the link becomes Updated of the old link, and a failed diff changes nothing |
| LoanCollaterals.LoanCollateral.SetCollateral | fineract-provider/src/main/java/org/apache/fineract/portfolio/collateral/domain/LoanCollateral.java:125-127 | only the collateral changes |
| Valuation.LineValue | fineract-provider/src/main/java/org/apache/fineract/portfolio/collateral/service/CollateralWritePlatformServiceJpaRepositoryImpl.java:116-125 | a line is worth basePrice × units × pctToBase / 100; it is zero when any factor is zero, and basePrice × units at 100 per cent |
| Valuation.Token | fineract-provider/src/main/java/org/apache/fineract/portfolio/collateral/service/CollateralWritePlatformServiceJpaRepositoryImpl.java:126 | a line's token ends with "U," |
| Valuation.TokenDeterminesLine | fineract-provider/src/main/java/org/apache/fineract/portfolio/collateral/service/CollateralWritePlatformServiceJpaRepositoryImpl.java:126 | two lines with the same token have the same collateral id and the same units: the token can be read back |
| Valuation.LongTextIsInjective | fineract-provider/src/main/java/org/apache/fineract/portfolio/collateral/service/CollateralWritePlatformServiceJpaRepositoryImpl.java:126 | two longs written with the same text are the same long |
| Valuation.LineOf | fineract-provider/src/main/java/org/apache/fineract/portfolio/collateral/service/CollateralWritePlatformServiceJpaRepositoryImpl.java:116-125 | a line resolves exactly when its definition exists and has a base entry that exists; an unknown definition is EntityNotFound for that id; a resolved line is worth basePrice × units × pctToBase / 100 |
| Valuation.Appraise | fineract-provider/src/main/java/org/apache/fineract/portfolio/collateral/service/CollateralWritePlatformServiceJpaRepositoryImpl.java:98-129 | the loop starts from zero and the empty description, and fails only with a line's lookup error; its meaning is stated by AppraiseIsSum, AppraiseIsTokens and AppraiseFailsAtFirstBadLine |
| Valuation.Description | fineract-provider/src/main/java/org/apache/fineract/portfolio/collateral/service/CollateralWritePlatformServiceJpaRepositoryImpl.java:126 | the reference description is empty exactly when there are no lines |
| Valuation.TotalValueSnoc | fineract-provider/src/main/java/org/apache/fineract/portfolio/collateral/service/CollateralWritePlatformServiceJpaRepositoryImpl.java:112-129 | the total of the lines plus one more is the earlier total plus that line's value |
| Valuation.TotalValueLast | fineract-provider/src/main/java/org/apache/fineract/portfolio/collateral/service/CollateralWritePlatformServiceJpaRepositoryImpl.java:112-129 | the total of a non-empty list is the total of all lines but the last plus the last line's value |
| Valuation.DescriptionSnoc | fineract-provider/src/main/java/org/apache/fineract/portfolio/collateral/service/CollateralWritePlatformServiceJpaRepositoryImpl.java:126 | the description of the lines plus one more is the earlier description followed by that line's token |
| Valuation.DescriptionLast | fineract-provider/src/main/java/org/apache/fineract/portfolio/collateral/service/CollateralWritePlatformServiceJpaRepositoryImpl.java:126 | the description of a non-empty list is that of all lines but the last, followed by the last line's token |
| Valuation.AppraiseSucceedsIff | fineract-provider/src/main/java/org/apache/fineract/portfolio/collateral/service/CollateralWritePlatformServiceJpaRepositoryImpl.java:112-129 | valuation succeeds exactly when every line names an existing definition whose base entry exists |
| Valuation.AppraiseStep | fineract-provider/src/main/java/org/apache/fineract/portfolio/collateral/service/CollateralWritePlatformServiceJpaRepositoryImpl.java:112-129 | a successful valuation adds the last line's value to the running total and its token to the description |
| Valuation.AppraiseIsSum | fineract-provider/src/main/java/org/apache/fineract/portfolio/collateral/service/CollateralWritePlatformServiceJpaRepositoryImpl.java:98-129 | a successful valuation's total equals the sum of the line values, starting from zero |
| Valuation.AppraiseIsTokens | fineract-provider/src/main/java/org/apache/fineract/portfolio/collateral/service/CollateralWritePlatformServiceJpaRepositoryImpl.java:99-126 | a successful valuation's description is the in-order concatenation of the line tokens |
| Valuation.AppraiseFailsAtFirstBadLine | fineract-provider/src/main/java/org/apache/fineract/portfolio/collateral/service/CollateralWritePlatformServiceJpaRepositoryImpl.java:112-129 | a failed valuation reports the error of a line before which every line resolved |
| Valuation.AppraiseFailurePersists | fineract-provider/src/main/java/org/apache/fineract/portfolio/collateral/service/CollateralWritePlatformServiceJpaRepositoryImpl.java:112-129 | once a prefix of the lines fails, the whole valuation fails with the same error |
| Valuation.AppraiseOverConsistentCatalog | fineract-provider/src/main/java/org/apache/fineract/portfolio/collateral/service/CollateralWritePlatformServiceJpaRepositoryImpl.java:117-121 | over a catalog whose definitions all have existing base entries, valuation fails only for a line naming an unknown definition, and with that id |
| Assembler.Reference | fineract-provider/src/main/java/org/apache/fineract/portfolio/collateral/service/CollateralAssembler.java:72-73 | an entry's collateral reference is its definition id when that definition exists and null otherwise; an unknown definition is not rejected |
| Assembler.Step | fineract-provider/src/main/java/org/apache/fineract/portfolio/collateral/service/CollateralAssembler.java:69-86 | one turn of the loop succeeds exactly when the entry has a definition id and any link id it carries is stored; a null definition id is refused by the lookup first, and an unknown link id is CollateralNotFound for that id |
| Assembler.AssembleItems | fineract-provider/src/main/java/org/apache/fineract/portfolio/collateral/service/CollateralAssembler.java:67-87 | no entries give no links, and a failure is the null-id refusal or a CollateralNotFound without a loan; its meaning is stated by AssembleFailsIff, AssembleCreatesNewLinks, AssembleUpdatesNamedLinks and AssembleTakesLastEntry |
| Assembler.Assemble | fineract-provider/src/main/java/org/apache/fineract/portfolio/collateral/service/CollateralAssembler.java:59-64 | an element that is not an object, or lacks a "collateral" array, yields no links |
| Assembler.NewLinks | fineract-provider/src/main/java/org/apache/fineract/portfolio/collateral/service/CollateralAssembler.java:77-78 | the reference list of new links has at most one per entry, and none of them belongs to a loan |
| Assembler.AssembleFailsIff | fineract-provider/src/main/java/org/apache/fineract/portfolio/collateral/service/CollateralAssembler.java:67-87 | assembly fails exactly when some entry has no definition id or names a link id that is not stored |
| Assembler.AssembleFailsAtFirstBadEntry | fineract-provider/src/main/java/org/apache/fineract/portfolio/collateral/service/CollateralAssembler.java:72-81 | a failed assembly reports its first entry that does not resolve: the null-id refusal when it has no definition id, otherwise CollateralNotFound for its unknown link id |
| Assembler.AssembleItemsSnoc | fineract-provider/src/main/java/org/apache/fineract/portfolio/collateral/service/CollateralAssembler.java:67-87 | one more entry is one more step of the loop |
| Assembler.AssembleFailurePersists | fineract-provider/src/main/java/org/apache/fineract/portfolio/collateral/service/CollateralAssembler.java:67-87 | once a prefix of the entries fails, the whole assembly fails with the same error |
| Assembler.AssembleIsBounded | fineract-provider/src/main/java/org/apache/fineract/portfolio/collateral/service/CollateralAssembler.java:67-87 | a successful assembly holds at most one link per entry |
| Assembler.AssembleCreatesNewLinks | fineract-provider/src/main/java/org/apache/fineract/portfolio/collateral/service/CollateralAssembler.java:77-78 | the new links are exactly those of the entries without an id, in entry order, each without a loan |
| Assembler.AssembleUpdatesNamedLinks | fineract-provider/src/main/java/org/apache/fineract/portfolio/collateral/service/CollateralAssembler.java:79-85 | the overwritten links are exactly the stored links some entry names |
| Assembler.TakesLastEntryFor | fineract-provider/src/main/java/org/apache/fineract/portfolio/collateral/service/CollateralAssembler.java:82-85 | for one overwritten link, the last entry naming it decides its row |
| Assembler.AssembleTakesLastEntry | fineract-provider/src/main/java/org/apache/fineract/portfolio/collateral/service/CollateralAssembler.java:82-85 | every overwritten link keeps its loan and takes collateral, value and quantity from the last entry naming it |
| Assembler.AddNew | fineract-provider/src/main/java/org/apache/fineract/portfolio/collateral/service/CollateralAssembler.java:77-78 | an entry without an id adds one fresh link carrying the entry's fields to the result |
| Assembler.Revisit | fineract-provider/src/main/java/org/apache/fineract/portfolio/collateral/service/CollateralAssembler.java:80-85 | an entry naming a link already loaded in this call reassembles the same object |
| Assembler.LoadAndAssemble | fineract-provider/src/main/java/org/apache/fineract/portfolio/collateral/service/CollateralAssembler.java:80-85 | an entry naming a stored link loads it, overwrites it via AssembleFrom and adds it to the result |
| Assembler.AssembleEntry | fineract-provider/src/main/java/org/apache/fineract/portfolio/collateral/service/CollateralAssembler.java:69-86 | one turn of the loop performs exactly one assembly step, failing exactly when the step fails and with its error |
| Assembler.AssembleNext | fineract-provider/src/main/java/org/apache/fineract/portfolio/collateral/service/CollateralAssembler.java:67-87 | after a successful prefix, the next entry extends the assembly by one step, or its failure is the failure of the whole assembly |
| Assembler.AssembleEntries | fineract-provider/src/main/java/org/apache/fineract/portfolio/collateral/service/CollateralAssembler.java:67-87 | the loop's result is the assembly of all entries: the first failing entry's error, or a set of at most one fresh object per entry mirroring every new and overwritten link |
| Assembler.FromParsedJson | fineract-provider/src/main/java/org/apache/fineract/portfolio/collateral/service/CollateralAssembler.java:57-95 | the returned set fails exactly as Assemble does; otherwise it consists of fresh objects, one per new link in order and one per overwritten link id, each carrying that link's row, and no object stands for two entries |
| WriteService.AppraiseRequest | fineract-provider/src/main/java/org/apache/fineract/portfolio/collateral/service/CollateralWritePlatformServiceJpaRepositoryImpl.java:98-112 | a request without collateralDetails is valued at zero with an empty description |
| WriteService.AppraiseRequestIsSumAndTokens | fineract-provider/src/main/java/org/apache/fineract/portfolio/collateral/service/CollateralWritePlatformServiceJpaRepositoryImpl.java:98-129 | a successfully valued request's total is the sum of its line values and its description the concatenation of its tokens |
| WriteService.Patched | fineract-provider/src/main/java/org/apache/fineract/portfolio/collateral/service/CollateralWritePlatformServiceJpaRepositoryImpl.java:278-290 | a definition after a partial update takes each member present in the payload and keeps every other field |
| WriteService.PatchedIsIdempotent | fineract-provider/src/main/java/org/apache/fineract/portfolio/collateral/service/CollateralWritePlatformServiceJpaRepositoryImpl.java:278-290 | a payload with neither member changes nothing, and applying a payload twice is applying it once |
| WriteService.CollateralWriteService.constructor | fineract-provider/src/main/java/org/apache/fineract/portfolio/collateral/service/CollateralWritePlatformServiceJpaRepositoryImpl.java:77-89 | a new service over loans with no collateral starts from empty tables that satisfy the schema constraints |
| WriteService.CollateralWriteService.LineValueOf | fineract-provider/src/main/java/org/apache/fineract/portfolio/collateral/service/CollateralWritePlatformServiceJpaRepositoryImpl.java:115-125 | reading a line through its definition and base entry gives exactly that line's value, or the error of the reference that fails |
| WriteService.CollateralWriteService.AddCollateral | fineract-provider/src/main/java/org/apache/fineract/portfolio/collateral/service/CollateralWritePlatformServiceJpaRepositoryImpl.java:93-155 | fails with LoanNotFound for a missing loan, with the first failing line's error, or with CodeValueNotFound, and then changes nothing; no loan status is checked; on success one link holding the loan and the computed value is stored under a fresh id and joins the loan's collection, and the appraisal returned is the valuation of the request |
| WriteService.CollateralWriteService.InsertLink | fineract-provider/src/main/java/org/apache/fineract/portfolio/collateral/service/CollateralWritePlatformServiceJpaRepositoryImpl.java:135-136 | a saved link gets the next id of its sequence and joins its loan's collection; nothing else changes |
| WriteService.CollateralWriteService.SaveCollateral | fineract-provider/src/main/java/org/apache/fineract/portfolio/collateral/service/CollateralWritePlatformServiceJpaRepositoryImpl.java:170-181 | saving a definition with a null base breaks the not-null base_id constraint and writes nothing; otherwise the row is stored |
| WriteService.CollateralWriteService.AddCollateralV2 | fineract-provider/src/main/java/org/apache/fineract/portfolio/collateral/service/CollateralWritePlatformServiceJpaRepositoryImpl.java:159-183 | an unknown base id ends in the generic data-integrity error with nothing written; otherwise a new definition over that base is stored under a fresh id |
| WriteService.CollateralWriteService.AddCollateralBase | fineract-provider/src/main/java/org/apache/fineract/portfolio/collateral/service/CollateralWritePlatformServiceJpaRepositoryImpl.java:187-213 | a type that is not a collateral code value fails with CodeValueNotFound and changes nothing; otherwise a new base entry is stored under a fresh id |
| WriteService.CollateralWriteService.UpdateCollateral | fineract-provider/src/main/java/org/apache/fineract/portfolio/collateral/service/CollateralWritePlatformServiceJpaRepositoryImpl.java:217-263 | LoanNotFound, CollateralNotFound, a failed diff, CodeValueNotFound for a changed unknown type, and CannotBeUpdated unless pending approval, each changing nothing; on success the link becomes Updated, the change-set is reported, and it is saved only when the change-set is non-empty |
| WriteService.CollateralWriteService.UpdateCollateralV2 | fineract-provider/src/main/java/org/apache/fineract/portfolio/collateral/service/CollateralWritePlatformServiceJpaRepositoryImpl.java:267-300 | the payload "{}" succeeds and writes nothing; otherwise an unknown id is a null dereference, and a known definition is saved with exactly the members present replaced |
| WriteService.CollateralWriteService.DeleteCollateral | fineract-provider/src/main/java/org/apache/fineract/portfolio/collateral/service/CollateralWritePlatformServiceJpaRepositoryImpl.java:304-321 | LoanNotFound, CollateralNotFound unless the link belongs to the loan, and CannotBeDeleted unless pending approval, each changing nothing; on success the link leaves the loan's collection and its table |

## Left out

- Authentication, logging and the command id that results pass through are not modelled.
- JSON parsing is not modelled: payloads are datatypes, whose members are optional only where the source tests for them. A malformed payload, a non-object array element, a wrong member type and the locale are left to the JSON library.
- WriteService.CollateralWriteService.AddCollateral: a missing or null `type_cv_id`, or a detail's missing or null `units` or `collateralId`, is a null dereference in the service's own code (lines 100 and 116-117 of CollateralWritePlatformServiceJpaRepositoryImpl.java) that the model does not represent; those members are mandatory in `AddCollateralCommand` and `CollateralDetail`. For `type_cv_id` that failure comes before the loan lookup, so such a request fails even for an unknown loan, where the model answers LoanNotFound.
- WriteService.CollateralWriteService.AddCollateralV2: a missing or null `base_id`, `qualityStandard` or `percentageToBase` is a null dereference at lines 164-166 of CollateralWritePlatformServiceJpaRepositoryImpl.java, before the base lookup, that the model does not represent; those members are mandatory in `AddCollateralV2Command`.
- WriteService.CollateralWriteService.AddCollateralBase: a missing or null `type_cv_id` or `basePrice` is a null dereference at lines 193-194 of CollateralWritePlatformServiceJpaRepositoryImpl.java, before the code-value lookup, that the model does not represent; those members are mandatory in `AddCollateralBaseCommand`.
- JSON null parameter values are not distinguished from absent members. In the assembler an absent or null "collateral" member is the null definition id that the repository lookup refuses.
- CollateralApiConstants and the parameter names of COLLATERAL_JSON_INPUT_PARAMS are not part of this model. The change-set keys are the datatype `Param`.
- The change-set is a map, so the insertion order of the LinkedHashMap is not kept.
- Longs are unbounded integers. Parsing overflow and 64-bit wrap-around are not modelled.
- Column scale and precision are applied by the database and are not modelled.
- Database constraints other than the not-null foreign keys are not modelled. Foreign keys to missing rows cannot be written, because every reference comes from a lookup.
- WriteService.CollateralWriteService.AddCollateral: the persisted link holds only the loan and the computed value. The constructor call at line 135 of CollateralWritePlatformServiceJpaRepositoryImpl.java passes a code value and the description where a collateral and a quantity are expected. The description and the type are computed and returned, not stored.
- WriteService.CollateralWriteService.UpdateCollateral: the collateral-type reassignment after a changed collateral id is treated as an opaque step that leaves the link row unchanged.
- WriteService.CollateralWriteService.UpdateCollateral: the deserialisation and validation of the command at lines 220-221 are not modelled, and CollateralCommand is not part of this model. A payload that validation rejects fails there before the loan lookup; the model accepts every command and its first possible failure is LoanNotFound.
- UpdateCollateral finds the link by id alone, as the source does, so a link of another loan can be edited under this loan's status check.
- UpdateCollateral reports the loan id as the argument's, where the source reads it from the command.
- UpdateCollateral and UpdateCollateralV2: a save of a null entity and a dereference of a null reference are both the error `NullReference`.
- A failed operation writes nothing. The source mutates the loaded entity before the state check and leaves the rollback to the transaction, so the mutation of that discarded object is not modelled.
- Assembler.FromParsedJson does not save the links it returns; the caller associates and saves them, and that is not part of this model.
- The returned HashSet compares links by the persistence base class's equality: stored links by id, new links (null id) by identity. Within one persistence context a stored id has one object, so this is identity, and the set is modelled as a set of objects with the per-call map of loaded links giving one object per id.
- The read service, the REST resource, the command handler and the data-transfer objects are not modelled; they hold no write logic.
