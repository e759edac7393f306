# Cypress grant eligibility engine in Dafny

This project models the grant eligibility engine of Cypress (`app/src/utils.js`),
which decides whether an applicant to a California transit grant is eligible.

Each criterion evaluator (`e0001`, `e0003`–`e0009`) returns a determination and a
reason. A determination is one of:

- `true`: eligible;
- `false`: ineligible;
- `null`: needs human review;
- `undefined`: needs more information.

`isApplicantEligible` first selects the evaluators whose codes the grant lists and
runs them in a fixed order. It then folds their determinations into one answer.

The model is laid out as follows:

- `determination.dfy` (module `Determinations`): the four-valued `Determination`, the
  `{ determination, reason }` record and `Array.prototype.join`.
- `evaluators.dfy` (module `Evaluators`): the evaluators as pure functions.
  - e0001 is the organisation-type switch with its reason strings. Null inputs are
    read as `{}` and `[]`.
  - e0003–e0007 pass a fact through and look up its reason.
  - e0008 and e0009 are list-overlap checks. e0009 has a review tier.
- `criteria.dfy` (module `Criteria`): the known codes, their canonical run order, and
  which of them a grant's code list selects.
- `aggregate.dfy` (module `Aggregate`): `isApplicantEligible` as an imperative method.
  - It keeps the chain of eight `if (includes) push` steps and the loop that returns
    at the first criterion that is not `true`.
  - The method is proved against the specification functions `SelectedCriteria` and
    `Fold`. Lemmas state what those functions mean.

JavaScript values are modelled as follows:

- a missing `organization_type` is `None`;
- a string is truthy when present and non-empty (`IsSpecified`);
- a reason missing from a lookup table (`{...}[undefined]`) is `None`.

## Model

| member | source | states |
|---|---|---|
| Determinations.FromBool | app/src/utils.js:44-86 | a boolean `includes` result is the determination `true` exactly when it holds and `false` exactly when it does not |
| Evaluators.SomeIncluded | app/src/utils.js:156 | `xs.some(x => ys.includes(x))` holds exactly when the two lists share an element |
| Evaluators.E0001PrimaryApplicantTypeEligibility | app/src/utils.js:19-102 | the type criterion is never `undefined` and always has a reason; an absent or empty type gives `null` with "Applicant type is not specified." |
| Evaluators.TypeSwitchMatchesTable | app/src/utils.js:20-91 | the `switch` agrees with the documented mapping of organisation types to labels: a mapped type is eligible exactly when the grant lists one of its labels, and any other type is `null` |
| Evaluators.E0001MatchesTypeTable | app/src/utils.js:38-91 | after the null defaults, the determination of e0001 is the label table's answer for the applicant's type |
| Evaluators.E0001FederalGovernmentNeverEligible | app/src/utils.js:67-69 | a Federal Government applicant is ineligible whatever types the grant lists |
| Evaluators.E0001TableCompleteness | app/src/utils.js:42-91 | every mapped type is eligible for a grant listing its first label and ineligible for a grant listing no types |
| Evaluators.E0001NullInputsAsEmpty | app/src/utils.js:38-39 | a null applicant behaves as `{}` and a null list of eligible types as `[]` |
| Evaluators.E0001ReasonMirrorsDetermination | app/src/utils.js:93-99 | for a specified type, two different determinations always give different reasons |
| Evaluators.FactResult | app/src/utils.js:104-112 | a fact criterion's determination is the fact itself; a reason is present exactly when the fact is not `undefined`, and it comes from the criterion's table |
| Evaluators.FactReasonRoundTrip | app/src/utils.js:106-110 | when a reason table's entries are distinct, the reason gives back the determination |
| Evaluators.FactReasonTablesDistinct | app/src/utils.js:106-150 | each of the five reason tables of e0003–e0007 has three distinct entries |
| Evaluators.E0003HasServiceToNonUrbanizedArea | app/src/utils.js:104-112 | the determination is `has_service_to_non_urbanized_area`; the reason is absent exactly for `undefined`, is one of the criterion's three fixed strings, and identifies the determination |
| Evaluators.E0004HasServiceConnectingUrbanAreas | app/src/utils.js:114-122 | the determination is `has_service_connecting_urban_areas`; the reason is absent exactly for `undefined`, is one of the criterion's three fixed strings, and identifies the determination |
| Evaluators.E0005HasServiceInNonAttainmentArea | app/src/utils.js:124-132 | the determination is `has_service_in_non_attainment_area`; the reason is absent exactly for `undefined`, is one of the criterion's three fixed strings, and identifies the determination |
| Evaluators.E0006CanReceiveStateTransitAssistance | app/src/utils.js:134-142 | the determination is `can_receive_state_transit_assistance`; the reason is absent exactly for `undefined`, is one of the criterion's three fixed strings, and identifies the determination |
| Evaluators.E0007HasServiceAlongFreightCorridors | app/src/utils.js:144-152 | the determination is `has_service_along_freight_corridors`; the reason is absent exactly for `undefined`, is one of the criterion's three fixed strings, and identifies the determination |
| Evaluators.E0008ProjectBeneficiariesEligibility | app/src/utils.js:154-163 | `undefined` exactly when no beneficiary is given; `true` exactly when some beneficiary is eligible; `false` exactly when beneficiaries are given and none is eligible; never `null`; always a reason |
| Evaluators.E0008OrderIndependent | app/src/utils.js:156 | the beneficiaries determination depends only on the members of the two lists, not on their order or repetitions |
| Evaluators.TypesWithReview | app/src/utils.js:166-167 | the filtered list of type names holds exactly the types listed with that review flag, and is no longer than the input |
| Evaluators.E0009ProjectTypeEligibility | app/src/utils.js:165-181 | the three tiers: `undefined` exactly when no type is given; `true` exactly when some type is listed without review; `null` exactly when none is listed without review but one is listed for review; `false` otherwise; always a reason |
| Evaluators.E0009NoReviewTakesPrecedence | app/src/utils.js:170-173 | a project type listed both with and without review makes the project eligible |
| Evaluators.MatchesTierSameMembers | app/src/utils.js:171-172 | which tier a project matches depends only on the members of the lists |
| Evaluators.E0009OrderIndependent | app/src/utils.js:170-173 | the project-type determination does not depend on the order of either list or on repetitions in it |
| Criteria.Rank | app/src/utils.js:194-217 | every code has a position in the run order of the `if` chain |
| Criteria.SelectionIsCanonical | app/src/utils.js:192-217 | the evaluators that run are exactly the known codes the grant lists, each once, in the fixed order, so at most eight |
| Criteria.SelectionEmptyIffNoneListed | app/src/utils.js:192-217 | no evaluator runs exactly when the grant lists no known code |
| Criteria.SelectionOfOneCode | app/src/utils.js:192-217 | a grant listing a single known code runs that evaluator alone |
| Criteria.SelectionIgnoresOrderAndDuplicates | app/src/utils.js:192-217 | only which known codes are listed matters, not their order, repetitions or other strings |
| Criteria.UnknownCodeIgnored | app/src/utils.js:192-217 | appending an unknown code such as "e0002" or "e0010" changes nothing |
| Criteria.MapCodesAt | app/src/utils.js:193-217 | running the evaluators over the selected codes gives one result per code, the i-th for the i-th code |
| Criteria.SelectionPushed | app/src/utils.js:192-217 | running the evaluators over the selection is what the eight `if (includes) push` steps build |
| Aggregate.ChainSelects | app/src/utils.js:192-217 | the chain of eight conditional pushes builds exactly the selected criteria in canonical order |
| Aggregate.IsApplicantEligible | app/src/utils.js:183-240 | the returned criteria are the selected evaluators' results in canonical order; the determination is the fold of the first non-true criterion |
| Aggregate.FirstNonTrue | app/src/utils.js:219-239 | the loop returns the determination of the first criterion that is not `true`, and `true` when every criterion is `true` |
| Aggregate.FoldTrueIffAllTrue | app/src/utils.js:238-239 | the applicant is eligible exactly when every selected criterion is `true` |
| Aggregate.FoldIsFirstNonTrue | app/src/utils.js:219-236 | when only `true` criteria come before a non-true criterion, the answer is that criterion's determination |
| Aggregate.FoldHasWitness | app/src/utils.js:219-236 | a non-true answer is the determination of some criterion with only `true` criteria before it |
| Aggregate.FoldTrueIffPrecedenceTrue | app/src/utils.js:219-239 | the loop and the precedence its comments describe agree on who is eligible |
| Aggregate.FoldFalseIsPrecedenceFalse | app/src/utils.js:220-223 | when the loop answers `false`, the precedence reading answers `false` too |
| Aggregate.FoldMatchesPrecedenceWhenUniform | app/src/utils.js:219-239 | when all non-true criteria share one determination, the loop and the precedence reading agree |
| Aggregate.FoldIsNotPrecedence | app/src/utils.js:219-236 | `[null, false]` makes the loop answer `null` where the precedence reading answers `false` |
| Aggregate.SelectedCriteriaFollowsCodes | app/src/utils.js:192-217 | there is one criterion per selected code, at most eight, and the i-th is the i-th code's evaluator result |
| Aggregate.SelectedCriteriaIgnoresOrder | app/src/utils.js:192-217 | neither the order of the grant's codes nor repeated or unknown codes change the criteria |
| Aggregate.NoCriteriaEligible | app/src/utils.js:192-239 | a grant listing no known code runs no evaluator, and every applicant is eligible for it |
| Aggregate.CountyWithoutNonAttainmentService | app/src/utils.js:55-57 | a county applying to a local-government grant that requires non-attainment-area service it lacks: the type criterion is `true` and runs first although listed second, the area criterion is `false`, and the applicant is ineligible |
| Aggregate.UnspecifiedTypeNeedsReview | app/src/utils.js:93-99 | a grant asking only for the applicant type, and an applicant with no type: one criterion with the "not specified" reason, and the answer is `null` |

## Left out

- `papaParsePromise` (utils.js:3-11) is left out. It wraps an asynchronous CSV parse and is I/O with no logic of its own.
- The Python data-source scripts and the build configuration are not part of this model.
- A JavaScript `TypeError` is not modelled. `isApplicantEligible` throws one when `eligibilityCriteria` is absent (utils.js:194), or when a list read by a selected e0008 or e0009 is absent (utils.js:212-217). A list that is never read cannot change the result. The model types these lists as sequences, never null; only `primaryApplicant` and `eligiblePrimaryApplicantTypes` may be null.
- The model does not cover facts of e0003–e0007 that are not booleans. A string or number is not one of the four determinations, so the model types each fact as a `Determination`.
- A non-string `organization_type` is not modelled; the type is an optional string.
- The `needsAdditionalReview` flag of an eligible project type is modelled as a boolean. The filters at utils.js:166-167 test its truthiness, so an absent flag counts as no review and a non-empty string such as "false" counts as review; such values are not modelled.
- `Aggregate.FirstNonTrue`: the loop lives in a helper method that `IsApplicantEligible` calls. It has the same three early returns, in the same order, as the loop inside `isApplicantEligible`.
- Aggregate.IsApplicantEligible: the code returns at the first criterion that is not `true`. The loop's comments read like a precedence (any `false` wins, then `undefined`, then `null`). The model follows the code. `PrecedenceFold` states the comments' reading, and `FoldIsNotPrecedence` exhibits an input where the two differ.
- Evaluators.E0009ProjectTypeEligibility: a type listed both with and without review counts as eligible. That is what the two `filter`s and the order of the conditional expression do: the no-review entry wins (`Evaluators.E0009NoReviewTakesPrecedence`).
- The code has no evaluators for e0002 or e0010. Such codes in a grant's list are ignored (`Criteria.UnknownCodeIgnored`).
