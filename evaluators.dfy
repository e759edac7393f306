/** The criterion evaluators of the grant eligibility engine: the primary
    applicant type matcher (e0001), the five applicant fact passthroughs
    (e0003-e0007), and the two list-overlap checks on project beneficiaries
    (e0008) and project types (e0009). Every evaluator is total. */
module Evaluators {
  import opened Determinations

  /** An applicant record as loaded from the data source. A missing
      `organization_type` is `None`; each yes/no fact is already decoded to
      true, false, null, or `Undefined` when the field is absent. */
  datatype Applicant = Applicant(
    organizationType: Option<string>,
    hasServiceToNonUrbanizedArea: Determination,
    hasServiceConnectingUrbanAreas: Determination,
    hasServiceInNonAttainmentArea: Determination,
    canReceiveStateTransitAssistance: Determination,
    hasServiceAlongFreightCorridors: Determination)

  /** The object literal `{}`: every field reads as `undefined`. */
  const EmptyApplicant: Applicant :=
    Applicant(None, Undefined, Undefined, Undefined, Undefined, Undefined)

  /** `applicant || {}` */
  function ApplicantOrEmpty(applicant: Option<Applicant>): Applicant
  {
    if applicant.Some? then applicant.value else EmptyApplicant
  }

  /** `eligibleTypes || []` */
  function ListOrEmpty(xs: Option<seq<string>>): seq<string>
  {
    if xs.Some? then xs.value else []
  }

  /** A JavaScript string is truthy when it is present and not empty. */
  predicate IsSpecified(t: Option<string>)
  {
    t.Some? && t.value != ""
  }

  /** `xs.some(x => ys.includes(x))` */
  function SomeIncluded(xs: seq<string>, ys: seq<string>): (r: bool)
    ensures r <==> exists x :: x in xs && x in ys
  {
    if xs == [] then false
    else xs[0] in ys || SomeIncluded(xs[1..], ys)
  }

  // ---------------------------------------------------------------------
  // e0001: primary applicant type
  // ---------------------------------------------------------------------

  /** The mapping of organisation types to the labels a grant lists as
      eligible, as the documentation comment of e0001 gives it; the
      Federal Government maps to no label at all. */
  const OrganizationTypeLabels: map<string, seq<string>> := map[
    "Non-Profit Organization" := ["private non-profit"],
    "Company" := ["private for-profit"],
    "Independent Agency" := ["transit agency"],
    "County" := ["county", "local government"],
    "Tribe" := ["indian tribal government"],
    "City/Town" := ["city", "local government"],
    "Federal Government" := [],
    "University - Public" := ["school"],
    "University - Private" := ["school"],
    "Community College" := ["school"],
    "MPO/RTPA" := ["mpo", "rtpa"],
    "Joint Powers Agency" := ["transit agency"],
    "Council of Governments" := ["mpo"]
  ]

  /** The `switch` on `organization_type`, case by case. */
  function TypeSwitch(orgType: Option<string>, eligibleTypes: seq<string>): Determination
  {
    if orgType.None? then Null
    else
      var t := orgType.value;
      if t == "Non-Profit Organization" then FromBool("private non-profit" in eligibleTypes)
      else if t == "Company" then FromBool("private for-profit" in eligibleTypes)
      else if t == "Independent Agency" then FromBool("transit agency" in eligibleTypes)
      else if t == "County" then FromBool("county" in eligibleTypes || "local government" in eligibleTypes)
      else if t == "Tribe" then FromBool("indian tribal government" in eligibleTypes)
      else if t == "City/Town" then FromBool("city" in eligibleTypes || "local government" in eligibleTypes)
      else if t == "Federal Government" then False
      else if t == "University - Public" || t == "University - Private" || t == "Community College" then
        FromBool("school" in eligibleTypes)
      else if t == "MPO/RTPA" then FromBool("mpo" in eligibleTypes || "rtpa" in eligibleTypes)
      else if t == "Joint Powers Agency" then FromBool("transit agency" in eligibleTypes)
      else if t == "Council of Governments" then FromBool("mpo" in eligibleTypes)
      else Null
  }

  const TypeNotSpecified: string := "Applicant type is not specified."

  /** What the reason says of a specified type, keyed by the determination. */
  function TypeVerdict(listed: string, d: Determination): string
  {
    match d
    case True => "corresponds to one of \"" + listed + "\"."
    case False => "does not correspond to any of \"" + listed + "\"."
    case _ => "is not well understood."
  }

  /** The reason for a specified type. */
  function TypeReason(t: string, eligibleTypes: seq<string>, d: Determination): string
  {
    "Applicant type \"" + t + "\" " + TypeVerdict(Join(eligibleTypes, QuotedListSeparator), d)
  }

  /** e0001PrimaryApplicantTypeEligibility: a null applicant or list is
      read as `{}` or `[]`; the answer is never `undefined`, and every
      answer carries a reason. */
  function E0001PrimaryApplicantTypeEligibility(applicant: Option<Applicant>, eligibleTypes: Option<seq<string>>): (r: CriterionResult)
    ensures r.determination != Undefined
    ensures r.reason.Some?
    ensures !IsSpecified(ApplicantOrEmpty(applicant).organizationType) ==>
              r.determination == Null && r.reason == Some(TypeNotSpecified)
  {
    var orgType := ApplicantOrEmpty(applicant).organizationType;
    var types := ListOrEmpty(eligibleTypes);
    var determination := TypeSwitch(orgType, types);
    var reason := if IsSpecified(orgType) then TypeReason(orgType.value, types, determination) else TypeNotSpecified;
    CriterionResult(determination, Some(reason))
  }

  /** The switch agrees with the table. */
  lemma TypeSwitchMatchesTable(orgType: Option<string>, types: seq<string>)
    ensures TypeSwitch(orgType, types) ==
              if orgType.Some? && orgType.value in OrganizationTypeLabels
              then FromBool(SomeIncluded(OrganizationTypeLabels[orgType.value], types))
              else Null
  {
  }

  /** A listed type is eligible exactly when the grant lists one of its
      labels, and any other type, or none, needs review. */
  lemma E0001MatchesTypeTable(applicant: Option<Applicant>, eligibleTypes: Option<seq<string>>)
    ensures var t := ApplicantOrEmpty(applicant).organizationType;
            var types := ListOrEmpty(eligibleTypes);
            E0001PrimaryApplicantTypeEligibility(applicant, eligibleTypes).determination ==
              if t.Some? && t.value in OrganizationTypeLabels
              then FromBool(SomeIncluded(OrganizationTypeLabels[t.value], types))
              else Null
  {
    TypeSwitchMatchesTable(ApplicantOrEmpty(applicant).organizationType, ListOrEmpty(eligibleTypes));
  }

  /** A Federal Government applicant is ineligible whatever the grant lists. */
  lemma E0001FederalGovernmentNeverEligible(applicant: Applicant, eligibleTypes: Option<seq<string>>)
    requires applicant.organizationType == Some("Federal Government")
    ensures E0001PrimaryApplicantTypeEligibility(Some(applicant), eligibleTypes).determination == False
  {
  }

  /** Every listed type other than the Federal Government is eligible for a
      grant listing its labels and ineligible for a grant listing none. */
  lemma {:induction false} E0001TableCompleteness(applicant: Applicant, eligibleTypes: seq<string>)
    requires applicant.organizationType.Some?
    requires applicant.organizationType.value in OrganizationTypeLabels
    ensures var labels := OrganizationTypeLabels[applicant.organizationType.value];
            var r := E0001PrimaryApplicantTypeEligibility(Some(applicant), Some(eligibleTypes)).determination;
            (labels != [] && labels[0] in eligibleTypes ==> r == True) &&
            (eligibleTypes == [] ==> r == False)
  {
    E0001MatchesTypeTable(Some(applicant), Some(eligibleTypes));
  }

  /** A null applicant is read as `{}` and a null list as `[]`. */
  lemma E0001NullInputsAsEmpty(applicant: Option<Applicant>, eligibleTypes: Option<seq<string>>)
    ensures E0001PrimaryApplicantTypeEligibility(None, eligibleTypes) ==
            E0001PrimaryApplicantTypeEligibility(Some(EmptyApplicant), eligibleTypes)
    ensures E0001PrimaryApplicantTypeEligibility(applicant, None) ==
            E0001PrimaryApplicantTypeEligibility(applicant, Some([]))
  {
  }

  /** Two strings with one prefix and suffixes that start differently differ. */
  lemma PrefixedDiffer(prefix: string, s1: string, s2: string)
    requires s1 != [] && s2 != [] && s1[0] != s2[0]
    ensures prefix + s1 != prefix + s2
  {
    assert (prefix + s1)[|prefix|] == s1[0];
    assert (prefix + s2)[|prefix|] == s2[0];
  }

  /** For one applicant, the reason tells apart the determinations that two
      grants' lists can produce: the reason mirrors the determination. */
  lemma E0001ReasonMirrorsDetermination(applicant: Applicant, types1: Option<seq<string>>, types2: Option<seq<string>>)
    requires IsSpecified(applicant.organizationType)
    ensures var r1 := E0001PrimaryApplicantTypeEligibility(Some(applicant), types1);
            var r2 := E0001PrimaryApplicantTypeEligibility(Some(applicant), types2);
            r1.determination != r2.determination ==> r1.reason != r2.reason
  {
    var t := applicant.organizationType.value;
    var r1 := E0001PrimaryApplicantTypeEligibility(Some(applicant), types1);
    var r2 := E0001PrimaryApplicantTypeEligibility(Some(applicant), types2);
    if r1.determination != r2.determination {
      // The verdicts of true, false and null start with 'c', 'd' and 'i'.
      var v1 := TypeVerdict(Join(ListOrEmpty(types1), QuotedListSeparator), r1.determination);
      var v2 := TypeVerdict(Join(ListOrEmpty(types2), QuotedListSeparator), r2.determination);
      assert v1[0] != v2[0];
      PrefixedDiffer("Applicant type \"" + t + "\" ", v1, v2);
    }
  }

  // ---------------------------------------------------------------------
  // e0003-e0007: applicant facts passed through
  // ---------------------------------------------------------------------

  /** The fixed reasons of one fact criterion, keyed by true, false, null. */
  datatype FactReasons = FactReasons(ifTrue: string, ifFalse: string, ifNull: string)

  predicate Distinct(reasons: FactReasons)
  {
    reasons.ifTrue != reasons.ifFalse && reasons.ifTrue != reasons.ifNull && reasons.ifFalse != reasons.ifNull
  }

  /** Passes the fact through as the determination and looks its reason up;
      the table has no entry for `undefined`. */
  function FactResult(fact: Determination, reasons: FactReasons): (r: CriterionResult)
    ensures r.determination == fact
    ensures r.reason.Some? <==> fact != Undefined
    ensures r.reason.Some? ==> r.reason.value in {reasons.ifTrue, reasons.ifFalse, reasons.ifNull}
  {
    var reason := match fact
      case True => Some(reasons.ifTrue)
      case False => Some(reasons.ifFalse)
      case Null => Some(reasons.ifNull)
      case Undefined => None;
    CriterionResult(fact, reason)
  }

  /** Reads the determination back from a fact criterion's reason. */
  function FactFromReason(reason: Option<string>, reasons: FactReasons): Determination
  {
    if reason.None? then Undefined
    else if reason.value == reasons.ifTrue then True
    else if reason.value == reasons.ifFalse then False
    else Null
  }

  /** With distinct reasons, the reason of a fact criterion determines its
      determination. */
  lemma FactReasonRoundTrip(fact: Determination, reasons: FactReasons)
    requires Distinct(reasons)
    ensures FactFromReason(FactResult(fact, reasons).reason, reasons) == fact
  {
  }

  const NonUrbanizedAreaReasons := FactReasons(
    "Applicant has service to non-urbanized areas.",
    "Applicant does not have service to non-urbanized areas.",
    "Applicant may not have service to non-urbanized areas.")

  const ConnectingUrbanAreasReasons := FactReasons(
    "Applicant has service connecting urban areas.",
    "Applicant does not have service connecting urban areas.",
    "Applicant may not have service connecting urban areas.")

  const NonAttainmentAreaReasons := FactReasons(
    "Applicant has service in non-attainment area.",
    "Applicant does not have service in non-attainment area.",
    "Applicant may not have service in non-attainment area.")

  const StateTransitAssistanceReasons := FactReasons(
    "Applicant can receive state transit assistance.",
    "Applicant cannot receive state transit assistance.",
    "Applicant may not be able to receive state transit assistance.")

  const FreightCorridorsReasons := FactReasons(
    "Applicant has service along trade and/or freight corridors.",
    "Applicant does not have service along trade and/or freight corridors.",
    "Applicant may not have service along trade and/or freight corridors.")

  /** The five reason tables are each unambiguous. */
  lemma FactReasonTablesDistinct()
    ensures Distinct(NonUrbanizedAreaReasons)
    ensures Distinct(ConnectingUrbanAreasReasons)
    ensures Distinct(NonAttainmentAreaReasons)
    ensures Distinct(StateTransitAssistanceReasons)
    ensures Distinct(FreightCorridorsReasons)
  {
  }

  /** e0003HasServiceToNonUrbanizedArea */
  function E0003HasServiceToNonUrbanizedArea(applicant: Applicant): (r: CriterionResult)
    ensures r.determination == applicant.hasServiceToNonUrbanizedArea
    ensures r.reason.Some? <==> r.determination != Undefined
    ensures FactFromReason(r.reason, NonUrbanizedAreaReasons) == r.determination
    ensures r.reason.Some? ==> r.reason.value in {NonUrbanizedAreaReasons.ifTrue, NonUrbanizedAreaReasons.ifFalse, NonUrbanizedAreaReasons.ifNull}
  {
    FactReasonTablesDistinct();
    FactReasonRoundTrip(applicant.hasServiceToNonUrbanizedArea, NonUrbanizedAreaReasons);
    FactResult(applicant.hasServiceToNonUrbanizedArea, NonUrbanizedAreaReasons)
  }

  /** e0004HasServiceConnectingUrbanAreas */
  function E0004HasServiceConnectingUrbanAreas(applicant: Applicant): (r: CriterionResult)
    ensures r.determination == applicant.hasServiceConnectingUrbanAreas
    ensures r.reason.Some? <==> r.determination != Undefined
    ensures FactFromReason(r.reason, ConnectingUrbanAreasReasons) == r.determination
    ensures r.reason.Some? ==> r.reason.value in {ConnectingUrbanAreasReasons.ifTrue, ConnectingUrbanAreasReasons.ifFalse, ConnectingUrbanAreasReasons.ifNull}
  {
    FactReasonTablesDistinct();
    FactReasonRoundTrip(applicant.hasServiceConnectingUrbanAreas, ConnectingUrbanAreasReasons);
    FactResult(applicant.hasServiceConnectingUrbanAreas, ConnectingUrbanAreasReasons)
  }

  /** e0005HasServiceInNonAttainmentArea */
  function E0005HasServiceInNonAttainmentArea(applicant: Applicant): (r: CriterionResult)
    ensures r.determination == applicant.hasServiceInNonAttainmentArea
    ensures r.reason.Some? <==> r.determination != Undefined
    ensures FactFromReason(r.reason, NonAttainmentAreaReasons) == r.determination
    ensures r.reason.Some? ==> r.reason.value in {NonAttainmentAreaReasons.ifTrue, NonAttainmentAreaReasons.ifFalse, NonAttainmentAreaReasons.ifNull}
  {
    FactReasonTablesDistinct();
    FactReasonRoundTrip(applicant.hasServiceInNonAttainmentArea, NonAttainmentAreaReasons);
    FactResult(applicant.hasServiceInNonAttainmentArea, NonAttainmentAreaReasons)
  }

  /** e0006CanReceiveStateTransitAssistance */
  function E0006CanReceiveStateTransitAssistance(applicant: Applicant): (r: CriterionResult)
    ensures r.determination == applicant.canReceiveStateTransitAssistance
    ensures r.reason.Some? <==> r.determination != Undefined
    ensures FactFromReason(r.reason, StateTransitAssistanceReasons) == r.determination
    ensures r.reason.Some? ==> r.reason.value in {StateTransitAssistanceReasons.ifTrue, StateTransitAssistanceReasons.ifFalse, StateTransitAssistanceReasons.ifNull}
  {
    FactReasonTablesDistinct();
    FactReasonRoundTrip(applicant.canReceiveStateTransitAssistance, StateTransitAssistanceReasons);
    FactResult(applicant.canReceiveStateTransitAssistance, StateTransitAssistanceReasons)
  }

  /** e0007HasServiceAlongFreightCorridors */
  function E0007HasServiceAlongFreightCorridors(applicant: Applicant): (r: CriterionResult)
    ensures r.determination == applicant.hasServiceAlongFreightCorridors
    ensures r.reason.Some? <==> r.determination != Undefined
    ensures FactFromReason(r.reason, FreightCorridorsReasons) == r.determination
    ensures r.reason.Some? ==> r.reason.value in {FreightCorridorsReasons.ifTrue, FreightCorridorsReasons.ifFalse, FreightCorridorsReasons.ifNull}
  {
    FactReasonTablesDistinct();
    FactReasonRoundTrip(applicant.hasServiceAlongFreightCorridors, FreightCorridorsReasons);
    FactResult(applicant.hasServiceAlongFreightCorridors, FreightCorridorsReasons)
  }

  // ---------------------------------------------------------------------
  // e0008 and e0009: overlap of lists
  // ---------------------------------------------------------------------

  /** e0008ProjectBeneficiariesEligibility: `undefined` exactly when no
      beneficiary is given, otherwise whether some beneficiary is eligible;
      never `null`, and always a reason. */
  function E0008ProjectBeneficiariesEligibility(beneficiaries: seq<string>, eligibleBeneficiaries: seq<string>): (r: CriterionResult)
    ensures r.determination == Undefined <==> beneficiaries == []
    ensures r.determination == True <==> exists b :: b in beneficiaries && b in eligibleBeneficiaries
    ensures r.determination == False <==>
              beneficiaries != [] && forall b :: b in beneficiaries ==> b !in eligibleBeneficiaries
    ensures r.determination != Null
    ensures r.reason.Some?
  {
    var determination := if |beneficiaries| > 0 then FromBool(SomeIncluded(beneficiaries, eligibleBeneficiaries)) else Undefined;
    var given := Join(beneficiaries, QuotedListSeparator);
    var eligible := Join(eligibleBeneficiaries, QuotedListSeparator);
    var reason := match determination
      case True => "Project beneficiaries \"" + given + "\" are in the list of eligible beneficiaries \"" + eligible + "\"."
      case False => "Project beneficiaries \"" + given + "\" are not in the list of eligible beneficiaries \"" + eligible + "\"."
      case _ => "Project beneficiaries are not specified.";
    CriterionResult(determination, Some(reason))
  }

  /** The order of either list, and repetitions in it, do not matter. */
  lemma E0008OrderIndependent(b1: seq<string>, e1: seq<string>, b2: seq<string>, e2: seq<string>)
    requires forall x :: x in b1 <==> x in b2
    requires forall x :: x in e1 <==> x in e2
    ensures E0008ProjectBeneficiariesEligibility(b1, e1).determination ==
            E0008ProjectBeneficiariesEligibility(b2, e2).determination
  {
    if b1 != [] { assert b1[0] in b2; }
    if b2 != [] { assert b2[0] in b1; }
  }

  /** One entry of a grant's eligible project types. The review flag is a
      boolean here; the source tests it for truthiness. */
  datatype EligibleProjectType = EligibleProjectType(projectType: string, needsAdditionalReview: bool)

  /** `eligibleProjectTypes.filter(t => t.needsAdditionalReview == review).map(t => t.type)` */
  function TypesWithReview(eligibleProjectTypes: seq<EligibleProjectType>, review: bool): (r: seq<string>)
    ensures |r| <= |eligibleProjectTypes|
    ensures forall x :: x in r <==> EligibleProjectType(x, review) in eligibleProjectTypes
  {
    if eligibleProjectTypes == [] then []
    else
      var e := eligibleProjectTypes[0];
      var rest := TypesWithReview(eligibleProjectTypes[1..], review);
      if e.needsAdditionalReview == review then [e.projectType] + rest else rest
  }

  /** `eligibleProjectTypes.map(t => t.type)` */
  function AllTypes(eligibleProjectTypes: seq<EligibleProjectType>): seq<string>
  {
    if eligibleProjectTypes == [] then []
    else [eligibleProjectTypes[0].projectType] + AllTypes(eligibleProjectTypes[1..])
  }

  /** Some project type is listed as eligible with the given review flag. */
  ghost predicate MatchesTier(projectTypes: seq<string>, eligibleProjectTypes: seq<EligibleProjectType>, review: bool)
  {
    exists t :: t in projectTypes && EligibleProjectType(t, review) in eligibleProjectTypes
  }

  /** e0009ProjectTypeEligibility, three tiers: `undefined` exactly when no
      project type is given; `true` when one is listed without review;
      otherwise `null` when one is listed for review; otherwise `false`. */
  function E0009ProjectTypeEligibility(projectTypes: seq<string>, eligibleProjectTypes: seq<EligibleProjectType>): (r: CriterionResult)
    ensures r.determination == Undefined <==> projectTypes == []
    ensures r.determination == True <==> MatchesTier(projectTypes, eligibleProjectTypes, false)
    ensures r.determination == Null <==>
              !MatchesTier(projectTypes, eligibleProjectTypes, false) && MatchesTier(projectTypes, eligibleProjectTypes, true)
    ensures r.determination == False <==>
              projectTypes != [] &&
              !MatchesTier(projectTypes, eligibleProjectTypes, false) && !MatchesTier(projectTypes, eligibleProjectTypes, true)
    ensures r.reason.Some?
  {
    var unqualified := TypesWithReview(eligibleProjectTypes, false);
    var qualified := TypesWithReview(eligibleProjectTypes, true);
    var determination :=
      if |projectTypes| <= 0 then Undefined
      else if SomeIncluded(projectTypes, unqualified) then True
      else if SomeIncluded(projectTypes, qualified) then Null
      else False;
    var given := Join(projectTypes, QuotedListSeparator);
    var reason := match determination
      case True =>
        "Project types \"" + given + "\" are in the list of eligible project types \""
        + Join(unqualified, QuotedListSeparator) + "\"."
      case False =>
        "Project types \"" + given + "\" are not in the list of eligible project types \""
        + Join(AllTypes(eligibleProjectTypes), QuotedListSeparator) + "\"."
      case Null =>
        "Project types \"" + given + "\" require additional review and are not in the list of eligible project types \""
        + Join(qualified, QuotedListSeparator) + "\"."
      case Undefined => "Project types are not specified.";
    CriterionResult(determination, Some(reason))
  }

  /** A type listed both with and without review counts as eligible: the
      no-review entry takes precedence. */
  lemma E0009NoReviewTakesPrecedence(projectTypes: seq<string>, eligibleProjectTypes: seq<EligibleProjectType>, t: string)
    requires t in projectTypes
    requires EligibleProjectType(t, false) in eligibleProjectTypes
    requires EligibleProjectType(t, true) in eligibleProjectTypes
    ensures E0009ProjectTypeEligibility(projectTypes, eligibleProjectTypes).determination == True
  {
  }

  /** Which tier a project matches depends only on the members of the lists. */
  lemma MatchesTierSameMembers(p1: seq<string>, e1: seq<EligibleProjectType>, p2: seq<string>, e2: seq<EligibleProjectType>, review: bool)
    requires forall x :: x in p1 <==> x in p2
    requires forall x :: x in e1 <==> x in e2
    ensures MatchesTier(p1, e1, review) <==> MatchesTier(p2, e2, review)
  {
  }

  /** The order of either list, and repetitions in it, do not matter. */
  lemma E0009OrderIndependent(p1: seq<string>, e1: seq<EligibleProjectType>, p2: seq<string>, e2: seq<EligibleProjectType>)
    requires forall x :: x in p1 <==> x in p2
    requires forall x :: x in e1 <==> x in e2
    ensures E0009ProjectTypeEligibility(p1, e1).determination ==
            E0009ProjectTypeEligibility(p2, e2).determination
  {
    MatchesTierSameMembers(p1, e1, p2, e2, false);
    MatchesTierSameMembers(p1, e1, p2, e2, true);
    assert p1 == [] <==> p2 == [] by {
      if p1 != [] { assert p1[0] in p2; }
      if p2 != [] { assert p2[0] in p1; }
    }
  }
}
