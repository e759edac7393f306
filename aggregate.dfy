/** isApplicantEligible: runs the evaluators a grant names, in canonical
    order, and folds their determinations into one. */
module Aggregate {
  import opened Determinations
  import opened Evaluators
  import opened Criteria

  /** What the applicant supplies: the primary applicant (possibly null),
      the project's beneficiaries and the project's types. */
  datatype ApplicantInfo = ApplicantInfo(
    primaryApplicant: Option<Applicant>,
    projectBeneficiaries: seq<string>,
    projectTypes: seq<string>)

  /** A grant's eligibility configuration. */
  datatype Grant = Grant(
    eligibilityCriteria: seq<string>,
    eligiblePrimaryApplicantTypes: Option<seq<string>>,
    eligibleProjectBeneficiaries: seq<string>,
    eligibleProjectTypes: seq<EligibleProjectType>)

  /** `{ determination, criteria }` */
  datatype AggregateResult = AggregateResult(determination: Determination, criteria: seq<CriterionResult>)

  /** The evaluator a code names, on the inputs the aggregator hands it:
      e0003-e0007 read `primaryApplicant || {}`. */
  function Evaluate(c: Code, info: ApplicantInfo, grant: Grant): CriterionResult
  {
    var applicant := ApplicantOrEmpty(info.primaryApplicant);
    match c
    case E0001 => E0001PrimaryApplicantTypeEligibility(info.primaryApplicant, grant.eligiblePrimaryApplicantTypes)
    case E0003 => E0003HasServiceToNonUrbanizedArea(applicant)
    case E0004 => E0004HasServiceConnectingUrbanAreas(applicant)
    case E0005 => E0005HasServiceInNonAttainmentArea(applicant)
    case E0006 => E0006CanReceiveStateTransitAssistance(applicant)
    case E0007 => E0007HasServiceAlongFreightCorridors(applicant)
    case E0008 => E0008ProjectBeneficiariesEligibility(info.projectBeneficiaries, grant.eligibleProjectBeneficiaries)
    case E0009 => E0009ProjectTypeEligibility(info.projectTypes, grant.eligibleProjectTypes)
  }

  /** The `criteria` list: one result per selected code, in canonical order. */
  function SelectedCriteria(info: ApplicantInfo, grant: Grant): seq<CriterionResult>
  {
    MapCodes(SelectedCodes(grant.eligibilityCriteria), c => Evaluate(c, info, grant))
  }

  /** The loop over `criteria`: the determination of the first criterion
      that is not true, or true when there is none. */
  function Fold(criteria: seq<CriterionResult>): Determination
  {
    if criteria == [] then True
    else if criteria[0].determination != True then criteria[0].determination
    else Fold(criteria[1..])
  }

  /** Each code dispatches to its own evaluator: the applicant criteria. */
  lemma EvaluateDispatchesApplicant(info: ApplicantInfo, grant: Grant)
    ensures Evaluate(E0001, info, grant) == E0001PrimaryApplicantTypeEligibility(info.primaryApplicant, grant.eligiblePrimaryApplicantTypes)
    ensures Evaluate(E0003, info, grant) == E0003HasServiceToNonUrbanizedArea(ApplicantOrEmpty(info.primaryApplicant))
    ensures Evaluate(E0004, info, grant) == E0004HasServiceConnectingUrbanAreas(ApplicantOrEmpty(info.primaryApplicant))
    ensures Evaluate(E0005, info, grant) == E0005HasServiceInNonAttainmentArea(ApplicantOrEmpty(info.primaryApplicant))
    ensures Evaluate(E0006, info, grant) == E0006CanReceiveStateTransitAssistance(ApplicantOrEmpty(info.primaryApplicant))
    ensures Evaluate(E0007, info, grant) == E0007HasServiceAlongFreightCorridors(ApplicantOrEmpty(info.primaryApplicant))
  {
  }

  /** Each code dispatches to its own evaluator: the beneficiaries criterion. */
  lemma EvaluateDispatchesBeneficiaries(info: ApplicantInfo, grant: Grant)
    ensures Evaluate(E0008, info, grant) == E0008ProjectBeneficiariesEligibility(info.projectBeneficiaries, grant.eligibleProjectBeneficiaries)
  {
  }

  /** Each code dispatches to its own evaluator: the project type criterion. */
  lemma EvaluateDispatchesProjectTypes(info: ApplicantInfo, grant: Grant)
    ensures Evaluate(E0009, info, grant) == E0009ProjectTypeEligibility(info.projectTypes, grant.eligibleProjectTypes)
  {
  }

  /** The eight `if (includes) push` steps, in canonical order, build the
      selected criteria. */
  lemma ChainSelects(info: ApplicantInfo, grant: Grant)
    ensures var codes := grant.eligibilityCriteria;
            var applicant := ApplicantOrEmpty(info.primaryApplicant);
            Push(Push(Push(Push(Push(Push(Push(Push([],
              "e0001" in codes, E0001PrimaryApplicantTypeEligibility(info.primaryApplicant, grant.eligiblePrimaryApplicantTypes)),
              "e0003" in codes, E0003HasServiceToNonUrbanizedArea(applicant)),
              "e0004" in codes, E0004HasServiceConnectingUrbanAreas(applicant)),
              "e0005" in codes, E0005HasServiceInNonAttainmentArea(applicant)),
              "e0006" in codes, E0006CanReceiveStateTransitAssistance(applicant)),
              "e0007" in codes, E0007HasServiceAlongFreightCorridors(applicant)),
              "e0008" in codes, E0008ProjectBeneficiariesEligibility(info.projectBeneficiaries, grant.eligibleProjectBeneficiaries)),
              "e0009" in codes, E0009ProjectTypeEligibility(info.projectTypes, grant.eligibleProjectTypes))
            == SelectedCriteria(info, grant)
  {
    EvaluateDispatchesApplicant(info, grant);
    EvaluateDispatchesBeneficiaries(info, grant);
    EvaluateDispatchesProjectTypes(info, grant);
    SelectionPushed(grant.eligibilityCriteria, c => Evaluate(c, info, grant));
  }

  /** The chain of `if`s, step by step, builds the selected criteria. */
  lemma IfChainSelects(info: ApplicantInfo, grant: Grant,
                       c1: seq<CriterionResult>, c2: seq<CriterionResult>, c3: seq<CriterionResult>, c4: seq<CriterionResult>,
                       c5: seq<CriterionResult>, c6: seq<CriterionResult>, c7: seq<CriterionResult>, c8: seq<CriterionResult>)
    requires c1 == Push([], "e0001" in grant.eligibilityCriteria, E0001PrimaryApplicantTypeEligibility(info.primaryApplicant, grant.eligiblePrimaryApplicantTypes))
    requires c2 == Push(c1, "e0003" in grant.eligibilityCriteria, E0003HasServiceToNonUrbanizedArea(ApplicantOrEmpty(info.primaryApplicant)))
    requires c3 == Push(c2, "e0004" in grant.eligibilityCriteria, E0004HasServiceConnectingUrbanAreas(ApplicantOrEmpty(info.primaryApplicant)))
    requires c4 == Push(c3, "e0005" in grant.eligibilityCriteria, E0005HasServiceInNonAttainmentArea(ApplicantOrEmpty(info.primaryApplicant)))
    requires c5 == Push(c4, "e0006" in grant.eligibilityCriteria, E0006CanReceiveStateTransitAssistance(ApplicantOrEmpty(info.primaryApplicant)))
    requires c6 == Push(c5, "e0007" in grant.eligibilityCriteria, E0007HasServiceAlongFreightCorridors(ApplicantOrEmpty(info.primaryApplicant)))
    requires c7 == Push(c6, "e0008" in grant.eligibilityCriteria, E0008ProjectBeneficiariesEligibility(info.projectBeneficiaries, grant.eligibleProjectBeneficiaries))
    requires c8 == Push(c7, "e0009" in grant.eligibilityCriteria, E0009ProjectTypeEligibility(info.projectTypes, grant.eligibleProjectTypes))
    ensures c8 == SelectedCriteria(info, grant)
  {
    ChainSelects(info, grant);
  }

  /** isApplicantEligible */
  method IsApplicantEligible(info: ApplicantInfo, grant: Grant) returns (r: AggregateResult)
    ensures r.criteria == SelectedCriteria(info, grant)
    ensures r.determination == Fold(r.criteria)
  {
    var criteriaCodes := grant.eligibilityCriteria;
    var applicant := ApplicantOrEmpty(info.primaryApplicant);
    var criteria: seq<CriterionResult> := [];
    if "e0001" in criteriaCodes {
      criteria := criteria + [E0001PrimaryApplicantTypeEligibility(info.primaryApplicant, grant.eligiblePrimaryApplicantTypes)];
    }
    assert criteria == Push([], "e0001" in criteriaCodes, E0001PrimaryApplicantTypeEligibility(info.primaryApplicant, grant.eligiblePrimaryApplicantTypes));
    ghost var c1 := criteria;
    if "e0003" in criteriaCodes {
      criteria := criteria + [E0003HasServiceToNonUrbanizedArea(applicant)];
    }
    assert criteria == Push(c1, "e0003" in criteriaCodes, E0003HasServiceToNonUrbanizedArea(applicant));
    ghost var c2 := criteria;
    if "e0004" in criteriaCodes {
      criteria := criteria + [E0004HasServiceConnectingUrbanAreas(applicant)];
    }
    assert criteria == Push(c2, "e0004" in criteriaCodes, E0004HasServiceConnectingUrbanAreas(applicant));
    ghost var c3 := criteria;
    if "e0005" in criteriaCodes {
      criteria := criteria + [E0005HasServiceInNonAttainmentArea(applicant)];
    }
    assert criteria == Push(c3, "e0005" in criteriaCodes, E0005HasServiceInNonAttainmentArea(applicant));
    ghost var c4 := criteria;
    if "e0006" in criteriaCodes {
      criteria := criteria + [E0006CanReceiveStateTransitAssistance(applicant)];
    }
    assert criteria == Push(c4, "e0006" in criteriaCodes, E0006CanReceiveStateTransitAssistance(applicant));
    ghost var c5 := criteria;
    if "e0007" in criteriaCodes {
      criteria := criteria + [E0007HasServiceAlongFreightCorridors(applicant)];
    }
    assert criteria == Push(c5, "e0007" in criteriaCodes, E0007HasServiceAlongFreightCorridors(applicant));
    ghost var c6 := criteria;
    if "e0008" in criteriaCodes {
      criteria := criteria + [E0008ProjectBeneficiariesEligibility(info.projectBeneficiaries, grant.eligibleProjectBeneficiaries)];
    }
    assert criteria == Push(c6, "e0008" in criteriaCodes, E0008ProjectBeneficiariesEligibility(info.projectBeneficiaries, grant.eligibleProjectBeneficiaries));
    ghost var c7 := criteria;
    if "e0009" in criteriaCodes {
      criteria := criteria + [E0009ProjectTypeEligibility(info.projectTypes, grant.eligibleProjectTypes)];
    }
    assert criteria == Push(c7, "e0009" in criteriaCodes, E0009ProjectTypeEligibility(info.projectTypes, grant.eligibleProjectTypes));
    IfChainSelects(info, grant, c1, c2, c3, c4, c5, c6, c7, criteria);

    var determination := FirstNonTrue(criteria);
    return AggregateResult(determination, criteria);
  }

  /** The `for (const criterion of criteria)` loop of isApplicantEligible:
      returns at the first criterion that is not true, whichever it is, so
      `[null, false]` gives null; true when every criterion is true. */
  method FirstNonTrue(criteria: seq<CriterionResult>) returns (d: Determination)
    ensures d == Fold(criteria)
  {
    for i := 0 to |criteria|
      invariant forall j :: 0 <= j < i ==> criteria[j].determination == True
      invariant Fold(criteria) == Fold(criteria[i..])
    {
      if criteria[i].determination == False {
        return False;
      }
      if criteria[i].determination == Undefined {
        return Undefined;
      }
      if criteria[i].determination == Null {
        return Null;
      }
      assert criteria[i..] == [criteria[i]] + criteria[i + 1..];
    }
    assert criteria[|criteria|..] == [];
    return True;
  }

  // ---------------------------------------------------------------------
  // What the fold means
  // ---------------------------------------------------------------------

  /** The applicant is eligible exactly when every selected criterion is. */
  lemma {:induction false} FoldTrueIffAllTrue(criteria: seq<CriterionResult>)
    ensures Fold(criteria) == True <==> forall j :: 0 <= j < |criteria| ==> criteria[j].determination == True
  {
    if criteria != [] && criteria[0].determination == True {
      FoldTrueIffAllTrue(criteria[1..]);
      assert forall j :: 1 <= j < |criteria| ==> criteria[j] == criteria[1..][j - 1];
    }
  }

  /** The answer is the determination of the first criterion that is not true. */
  lemma {:induction false} FoldIsFirstNonTrue(criteria: seq<CriterionResult>, k: nat)
    requires k < |criteria| && criteria[k].determination != True
    requires forall j :: 0 <= j < k ==> criteria[j].determination == True
    ensures Fold(criteria) == criteria[k].determination
  {
    if k > 0 {
      FoldIsFirstNonTrue(criteria[1..], k - 1);
    }
  }

  /** A non-true answer always comes from some criterion, with only true
      criteria before it. */
  lemma {:induction false} FoldHasWitness(criteria: seq<CriterionResult>)
    requires Fold(criteria) != True
    ensures exists k :: 0 <= k < |criteria| && criteria[k].determination == Fold(criteria) &&
                        forall j :: 0 <= j < k ==> criteria[j].determination == True
  {
    if criteria[0].determination == True {
      FoldHasWitness(criteria[1..]);
      var k :| 0 <= k < |criteria[1..]| && criteria[1..][k].determination == Fold(criteria[1..]) &&
                forall j :: 0 <= j < k ==> criteria[1..][j].determination == True;
      assert criteria[k + 1] == criteria[1..][k];
      assert forall j :: 1 <= j < k + 1 ==> criteria[j] == criteria[1..][j - 1];
    } else {
      assert criteria[0].determination == Fold(criteria);
    }
  }

  // ---------------------------------------------------------------------
  // The fold against the reading of its comments
  // ---------------------------------------------------------------------

  /** Some criterion has determination `d`. */
  ghost predicate Has(criteria: seq<CriterionResult>, d: Determination)
  {
    exists j :: 0 <= j < |criteria| && criteria[j].determination == d
  }

  /** The loop's comments read as a precedence: any false criterion makes
      the applicant ineligible, else any undefined one asks for more
      information, else any null one asks for review, else eligible. */
  ghost function PrecedenceFold(criteria: seq<CriterionResult>): Determination
  {
    if Has(criteria, False) then False
    else if Has(criteria, Undefined) then Undefined
    else if Has(criteria, Null) then Null
    else True
  }

  /** Both readings agree on who is eligible. */
  lemma FoldTrueIffPrecedenceTrue(criteria: seq<CriterionResult>)
    ensures Fold(criteria) == True <==> PrecedenceFold(criteria) == True
  {
    FoldTrueIffAllTrue(criteria);
    if PrecedenceFold(criteria) == True {
      forall j | 0 <= j < |criteria| ensures criteria[j].determination == True {
        assert criteria[j].determination != False && criteria[j].determination != Undefined;
        assert criteria[j].determination != Null;
      }
    }
  }

  /** A false answer of the loop is also the precedence answer. */
  lemma FoldFalseIsPrecedenceFalse(criteria: seq<CriterionResult>)
    requires Fold(criteria) == False
    ensures PrecedenceFold(criteria) == False
  {
    FoldHasWitness(criteria);
  }

  /** When all criteria that are not true agree, both readings give the
      same answer. */
  lemma FoldMatchesPrecedenceWhenUniform(criteria: seq<CriterionResult>, d: Determination)
    requires forall j :: 0 <= j < |criteria| ==> criteria[j].determination in {True, d}
    ensures Fold(criteria) == PrecedenceFold(criteria)
  {
    FoldTrueIffPrecedenceTrue(criteria);
    if Fold(criteria) != True {
      FoldHasWitness(criteria);
    }
  }

  /** The readings differ: a null criterion before a false one makes the
      loop ask for review where the comments call the applicant ineligible. */
  lemma FoldIsNotPrecedence()
    ensures var criteria := [CriterionResult(Null, None), CriterionResult(False, None)];
            Fold(criteria) == Null && PrecedenceFold(criteria) == False
  {
    var criteria := [CriterionResult(Null, None), CriterionResult(False, None)];
    assert criteria[1].determination == False;
  }

  // ---------------------------------------------------------------------
  // What the criteria are
  // ---------------------------------------------------------------------

  /** One result per selected code, in canonical order, at most eight. */
  lemma SelectedCriteriaFollowsCodes(info: ApplicantInfo, grant: Grant)
    ensures var codes := SelectedCodes(grant.eligibilityCriteria);
            var criteria := SelectedCriteria(info, grant);
            |criteria| == |codes| <= |Canonical| &&
            forall i :: 0 <= i < |codes| ==> criteria[i] == Evaluate(codes[i], info, grant)
  {
    SelectionIsCanonical(grant.eligibilityCriteria);
    MapCodesAt(SelectedCodes(grant.eligibilityCriteria), c => Evaluate(c, info, grant));
  }

  /** The order of the grant's codes, repeated codes and unknown codes do
      not change the criteria. */
  lemma SelectedCriteriaIgnoresOrder(info: ApplicantInfo, grant: Grant, codes: seq<string>)
    requires forall c :: CodeName(c) in grant.eligibilityCriteria <==> CodeName(c) in codes
    ensures SelectedCriteria(info, grant.(eligibilityCriteria := codes)) == SelectedCriteria(info, grant)
  {
    SelectionIgnoresOrderAndDuplicates(grant.eligibilityCriteria, codes);
    var other := grant.(eligibilityCriteria := codes);
    forall c ensures Evaluate(c, info, other) == Evaluate(c, info, grant) {
    }
    MapCodesAgree(SelectedCodes(codes), c => Evaluate(c, info, other), c => Evaluate(c, info, grant));
  }

  /** A grant that lists no known code runs no evaluator, and every
      applicant is eligible for it. */
  lemma NoCriteriaEligible(info: ApplicantInfo, grant: Grant)
    requires forall c :: CodeName(c) !in grant.eligibilityCriteria
    ensures SelectedCriteria(info, grant) == [] && Fold(SelectedCriteria(info, grant)) == True
  {
    SelectionEmptyIffNoneListed(grant.eligibilityCriteria);
  }

  /** A county applying to a grant for local governments that also asks
      for service in a non-attainment area, which the county lacks: the
      type criterion passes, the area criterion fails, and the applicant
      is ineligible; the criteria come in canonical order, whatever the
      order of the grant's codes. */
  lemma CountyWithoutNonAttainmentService(a: Applicant)
    requires a.organizationType == Some("County") && a.hasServiceInNonAttainmentArea == False
    ensures var info := ApplicantInfo(Some(a), [], []);
            var grant := Grant(["e0005", "e0001"], Some(["local government"]), [], []);
            var criteria := SelectedCriteria(info, grant);
            |criteria| == 2 && criteria[0].determination == True && criteria[1].determination == False &&
            Fold(criteria) == False
  {
    var info := ApplicantInfo(Some(a), [], []);
    var grant := Grant(["e0005", "e0001"], Some(["local government"]), [], []);
    var f := c => Evaluate(c, info, grant);
    SelectionPushed(grant.eligibilityCriteria, f);
    assert SelectedCriteria(info, grant) == [f(E0001), f(E0005)];
    EvaluateDispatchesApplicant(info, grant);
    assert f(E0001).determination == True by {
      E0001MatchesTypeTable(Some(a), Some(["local government"]));
    }
  }

  /** A grant that asks only for the applicant type, from an applicant
      whose type is not given: one criterion, null with its fixed reason,
      and the application goes to human review. */
  lemma UnspecifiedTypeNeedsReview(info: ApplicantInfo, grant: Grant)
    requires forall c :: CodeName(c) in grant.eligibilityCriteria <==> c == E0001
    requires !IsSpecified(ApplicantOrEmpty(info.primaryApplicant).organizationType)
    ensures var criteria := SelectedCriteria(info, grant);
            |criteria| == 1 && criteria[0].reason == Some(TypeNotSpecified) && Fold(criteria) == Null
  {
    SelectionOfOneCode(grant.eligibilityCriteria, E0001);
    SelectedCriteriaFollowsCodes(info, grant);
    EvaluateDispatchesApplicant(info, grant);
  }
}
