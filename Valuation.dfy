/**
 * Valuation of the collateral attached to a loan: each detail line names a collateral
 * definition and a number of units, and is worth basePrice * units * (pctToBase / 100),
 * taken from the definition and its base entry. The lines are added up from zero, and a
 * description token "<collateralId>C<-><units>U," is appended per line, in order.
 * Decimal arithmetic is exact, so real numbers model it without rounding.
 */
module Valuation {
  import opened Wrappers
  import opened Platform
  import opened DecimalText
  import opened Collaterals
  import opened CollateralBases

  /** One entry of the request's collateralDetails array. */
  datatype CollateralDetail = CollateralDetail(collateralId: int, units: int)

  /** The accumulated loan value and description. */
  datatype Appraisal = Appraisal(value: real, description: string)

  /** The worth of one line. */
  function LineValue(basePrice: real, units: int, pctToBase: real): (v: real)
    ensures v * 100.0 == basePrice * (units as real) * pctToBase
    ensures pctToBase == 0.0 || units == 0 || basePrice == 0.0 ==> v == 0.0
    ensures pctToBase == 100.0 ==> v == basePrice * units as real
  {
    basePrice * (units as real) * (pctToBase / 100.0)
  }

  /** The separator between a line's collateral id and its units, and the token's end. */
  const Arrow: string := "C<->"
  const LineEnd: string := "U,"

  /** The description token of one line. */
  function Token(d: CollateralDetail): (t: string)
    ensures |t| > |LineEnd| && t[|t| - |LineEnd|..] == LineEnd
  {
    LongToString(d.collateralId) + Arrow + LongToString(d.units) + LineEnd
  }

  /** No character of s is the 'C' that opens the arrow. */
  predicate NoArrowStart(s: string) {
    forall i :: 0 <= i < |s| ==> s[i] != 'C'
  }

  lemma LongTextHasNoArrow(x: int)
    ensures NoArrowStart(LongToString(x))
  {
    var s := LongToString(x);
    forall i | 0 <= i < |s| ensures s[i] != 'C' {
      if x < 0 && i > 0 {
        assert s[1..][i - 1] == s[i];
      }
    }
  }

  /** Two texts that each run up to the first 'C' of the same string are the same text. */
  lemma {:induction false} SplitAtArrow(a: string, b: string, c: string, d: string)
    requires a + b == c + d && NoArrowStart(a) && NoArrowStart(c)
    requires |b| > 0 && b[0] == 'C' && |d| > 0 && d[0] == 'C'
    ensures a == c && b == d
  {
    var m := if |a| < |c| then |a| else |c|;
    assert m < |a + b| && (a + b)[m] == (c + d)[m];
    assert a == (a + b)[..|a|] && c == (c + d)[..|c|];
    assert b == (a + b)[|a|..] && d == (c + d)[|c|..];
  }

  /** Two longs with the same text are the same long. */
  lemma LongTextIsInjective(x: int, y: int)
    requires LongToString(x) == LongToString(y)
    ensures x == y
  {
    LongToStringRoundTrip(x);
    LongToStringRoundTrip(y);
  }

  /** The text between the arrow and the line end is the units' text. */
  lemma UnitsBetweenArrowAndEnd(u1: string, u2: string)
    requires Arrow + u1 + LineEnd == Arrow + u2 + LineEnd
    ensures u1 == u2
  {
    assert u1 == (Arrow + u1 + LineEnd)[|Arrow|..|Arrow| + |u1|];
    assert u2 == (Arrow + u2 + LineEnd)[|Arrow|..|Arrow| + |u2|];
  }

  /** A token is the id's text followed by the arrow, the units' text and the line end. */
  lemma TokenParts(d: CollateralDetail)
    ensures Token(d) == LongToString(d.collateralId) + (Arrow + LongToString(d.units) + LineEnd)
  {
  }

  /** A token names exactly one line: its collateral id and its units can be read back from it. */
  lemma TokenDeterminesLine(d1: CollateralDetail, d2: CollateralDetail)
    requires Token(d1) == Token(d2)
    ensures d1 == d2
  {
    var u1, u2 := LongToString(d1.units), LongToString(d2.units);
    assert LongToString(d1.collateralId) == LongToString(d2.collateralId) && Arrow + u1 + LineEnd == Arrow + u2 + LineEnd by {
      TokenParts(d1);
      TokenParts(d2);
      LongTextHasNoArrow(d1.collateralId);
      LongTextHasNoArrow(d2.collateralId);
      SplitAtArrow(LongToString(d1.collateralId), Arrow + u1 + LineEnd, LongToString(d2.collateralId), Arrow + u2 + LineEnd);
    }
    UnitsBetweenArrowAndEnd(u1, u2);
    LongTextIsInjective(d1.collateralId, d2.collateralId);
    LongTextIsInjective(d1.units, d2.units);
  }

  /**
   * Resolves one line against the catalogs, failing as the repository references do: an
   * unknown definition or base entry cannot be initialised, a null base cannot be read.
   */
  function LineOf(d: CollateralDetail, collaterals: map<int, CollateralRow>, bases: map<int, BaseRow>): (r: Result<real, Error>)
    ensures r.Success? <==> d.collateralId in collaterals && collaterals[d.collateralId].base.Some?
                            && collaterals[d.collateralId].base.value in bases
    ensures d.collateralId !in collaterals ==> r == Failure(EntityNotFound(CollateralEntity, d.collateralId))
    ensures r.Success? ==>
      r.value * 100.0 == bases[collaterals[d.collateralId].base.value].basePrice * (d.units as real) * collaterals[d.collateralId].pctToBase
  {
    if d.collateralId !in collaterals then Failure(EntityNotFound(CollateralEntity, d.collateralId))
    else
      var c := collaterals[d.collateralId];
      if c.base.None? then Failure(NullReference)
      else if c.base.value !in bases then Failure(EntityNotFound(CollateralBaseEntity, c.base.value))
      else Success(LineValue(bases[c.base.value].basePrice, d.units, c.pctToBase))
  }

  /** The valuation loop: lines are taken left to right, and the first failing line stops it. */
  function Appraise(details: seq<CollateralDetail>, collaterals: map<int, CollateralRow>, bases: map<int, BaseRow>): (r: Result<Appraisal, Error>)
    ensures details == [] ==> r == Success(Appraisal(0.0, ""))
    ensures r.Failure? ==> r.error.EntityNotFound? || r.error == NullReference
    decreases |details|
  {
    if details == [] then Success(Appraisal(0.0, ""))
    else
      var last := details[|details| - 1];
      match Appraise(details[..|details| - 1], collaterals, bases)
      case Failure(e) => Failure(e)
      case Success(a) =>
        match LineOf(last, collaterals, bases)
        case Failure(e) => Failure(e)
        case Success(v) => Success(Appraisal(a.value + v, a.description + Token(last)))
  }

  predicate AllResolve(details: seq<CollateralDetail>, collaterals: map<int, CollateralRow>, bases: map<int, BaseRow>) {
    forall i :: 0 <= i < |details| ==> LineOf(details[i], collaterals, bases).Success?
  }

  /** Reference definition of the total: the sum of the line values. */
  function TotalValue(details: seq<CollateralDetail>, collaterals: map<int, CollateralRow>, bases: map<int, BaseRow>): real
    requires AllResolve(details, collaterals, bases)
    decreases |details|
  {
    if details == [] then 0.0
    else LineOf(details[0], collaterals, bases).value + TotalValue(details[1..], collaterals, bases)
  }

  /** Reference definition of the description: the tokens of the lines, concatenated in order. */
  function Description(details: seq<CollateralDetail>): (s: string)
    ensures s == "" <==> details == []
    decreases |details|
  {
    if details == [] then "" else Token(details[0]) + Description(details[1..])
  }

  lemma {:induction false} TotalValueSnoc(details: seq<CollateralDetail>, d: CollateralDetail,
                                          collaterals: map<int, CollateralRow>, bases: map<int, BaseRow>)
    requires AllResolve(details + [d], collaterals, bases)
    ensures AllResolve(details, collaterals, bases) && LineOf(d, collaterals, bases).Success?
    ensures TotalValue(details + [d], collaterals, bases)
         == TotalValue(details, collaterals, bases) + LineOf(d, collaterals, bases).value
    decreases |details|
  {
    assert forall i :: 0 <= i < |details| ==> details[i] == (details + [d])[i];
    assert (details + [d])[|details|] == d;
    if details != [] {
      assert (details + [d])[1..] == details[1..] + [d];
      TotalValueSnoc(details[1..], d, collaterals, bases);
    }
  }

  lemma {:induction false} DescriptionSnoc(details: seq<CollateralDetail>, d: CollateralDetail)
    ensures Description(details + [d]) == Description(details) + Token(d)
    decreases |details|
  {
    if details == [] {
      assert details + [d] == [d];
    } else {
      assert (details + [d])[1..] == details[1..] + [d];
      DescriptionSnoc(details[1..], d);
    }
  }

  lemma TotalValueLast(details: seq<CollateralDetail>, collaterals: map<int, CollateralRow>, bases: map<int, BaseRow>)
    requires details != [] && AllResolve(details, collaterals, bases)
    ensures AllResolve(details[..|details| - 1], collaterals, bases)
    ensures TotalValue(details, collaterals, bases)
         == TotalValue(details[..|details| - 1], collaterals, bases) + LineOf(details[|details| - 1], collaterals, bases).value
  {
    var init, last := details[..|details| - 1], details[|details| - 1];
    assert details == init + [last];
    TotalValueSnoc(init, last, collaterals, bases);
  }

  lemma DescriptionLast(details: seq<CollateralDetail>)
    requires details != []
    ensures Description(details) == Description(details[..|details| - 1]) + Token(details[|details| - 1])
  {
    var init, last := details[..|details| - 1], details[|details| - 1];
    assert details == init + [last];
    DescriptionSnoc(init, last);
  }

  /** The valuation succeeds exactly when every line resolves. */
  lemma {:induction false} AppraiseSucceedsIff(details: seq<CollateralDetail>, collaterals: map<int, CollateralRow>, bases: map<int, BaseRow>)
    ensures Appraise(details, collaterals, bases).Success? <==> AllResolve(details, collaterals, bases)
    decreases |details|
  {
    if details != [] {
      var init := details[..|details| - 1];
      AppraiseSucceedsIff(init, collaterals, bases);
      assert forall i :: 0 <= i < |init| ==> init[i] == details[i];
    }
  }

  /** The last line of a successful valuation adds its value and its token. */
  lemma AppraiseStep(details: seq<CollateralDetail>, collaterals: map<int, CollateralRow>, bases: map<int, BaseRow>)
    requires details != [] && Appraise(details, collaterals, bases).Success?
    ensures Appraise(details[..|details| - 1], collaterals, bases).Success?
    ensures LineOf(details[|details| - 1], collaterals, bases).Success?
    ensures var a := Appraise(details[..|details| - 1], collaterals, bases).value;
      Appraise(details, collaterals, bases).value ==
        Appraisal(a.value + LineOf(details[|details| - 1], collaterals, bases).value, a.description + Token(details[|details| - 1]))
  {
  }

  /** A successful valuation is the sum of the line values, starting from zero. */
  lemma {:induction false} AppraiseIsSum(details: seq<CollateralDetail>, collaterals: map<int, CollateralRow>, bases: map<int, BaseRow>)
    requires Appraise(details, collaterals, bases).Success?
    ensures AllResolve(details, collaterals, bases)
    ensures Appraise(details, collaterals, bases).value.value == TotalValue(details, collaterals, bases)
    decreases |details|
  {
    AppraiseSucceedsIff(details, collaterals, bases);
    if details != [] {
      var init := details[..|details| - 1];
      AppraiseStep(details, collaterals, bases);
      AppraiseIsSum(init, collaterals, bases);
      TotalValueLast(details, collaterals, bases);
    }
  }

  /** The description of a successful valuation is the in-order concatenation of the line tokens. */
  lemma {:induction false} AppraiseIsTokens(details: seq<CollateralDetail>, collaterals: map<int, CollateralRow>, bases: map<int, BaseRow>)
    requires Appraise(details, collaterals, bases).Success?
    ensures Appraise(details, collaterals, bases).value.description == Description(details)
    decreases |details|
  {
    if details != [] {
      var init := details[..|details| - 1];
      AppraiseStep(details, collaterals, bases);
      AppraiseIsTokens(init, collaterals, bases);
      DescriptionLast(details);
    }
  }

  /** A failed valuation reports the error of its first failing line. */
  lemma {:induction false} AppraiseFailsAtFirstBadLine(details: seq<CollateralDetail>, collaterals: map<int, CollateralRow>, bases: map<int, BaseRow>)
    requires Appraise(details, collaterals, bases).Failure?
    ensures exists j :: (0 <= j < |details|
      && LineOf(details[j], collaterals, bases) == Failure(Appraise(details, collaterals, bases).error)
      && AllResolve(details[..j], collaterals, bases))
    decreases |details|
  {
    var init, last := details[..|details| - 1], details[|details| - 1];
    var e := Appraise(details, collaterals, bases).error;
    if Appraise(init, collaterals, bases).Failure? {
      AppraiseFailsAtFirstBadLine(init, collaterals, bases);
      var j :| 0 <= j < |init| && LineOf(init[j], collaterals, bases) == Failure(e) && AllResolve(init[..j], collaterals, bases);
      assert init[..j] == details[..j];
      assert details[j] == init[j];
    } else {
      AppraiseSucceedsIff(init, collaterals, bases);
      assert details[..|details| - 1] == init;
      assert LineOf(details[|details| - 1], collaterals, bases) == Failure(e);
    }
  }

  /** Once a prefix of the lines fails, the whole valuation fails with that error. */
  lemma {:induction false} AppraiseFailurePersists(details: seq<CollateralDetail>, k: nat, collaterals: map<int, CollateralRow>, bases: map<int, BaseRow>)
    requires k <= |details|
    requires Appraise(details[..k], collaterals, bases).Failure?
    ensures Appraise(details, collaterals, bases) == Appraise(details[..k], collaterals, bases)
    decreases |details| - k
  {
    if k == |details| {
      assert details[..k] == details;
    } else {
      var init := details[..|details| - 1];
      assert init[..k] == details[..k];
      AppraiseFailurePersists(init, k, collaterals, bases);
    }
  }

  /**
   * Over a catalog where every definition has a base entry that exists, valuation fails only
   * for a line naming an unknown definition.
   */
  lemma AppraiseOverConsistentCatalog(details: seq<CollateralDetail>, collaterals: map<int, CollateralRow>, bases: map<int, BaseRow>)
    requires forall id :: id in collaterals ==> collaterals[id].base.Some? && collaterals[id].base.value in bases
    ensures Appraise(details, collaterals, bases).Success? <==> forall i :: 0 <= i < |details| ==> details[i].collateralId in collaterals
    ensures Appraise(details, collaterals, bases).Failure? ==>
      exists i :: 0 <= i < |details| && details[i].collateralId !in collaterals
        && Appraise(details, collaterals, bases).error == EntityNotFound(CollateralEntity, details[i].collateralId)
  {
    AppraiseSucceedsIff(details, collaterals, bases);
    if Appraise(details, collaterals, bases).Failure? {
      AppraiseFailsAtFirstBadLine(details, collaterals, bases);
    }
  }
}
