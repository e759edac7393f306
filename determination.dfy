/** The four-valued outcome every eligibility criterion (and the aggregate)
    produces, the per-criterion result record, and the string joining used
    to render reasons. */
module Determinations {

  datatype Option<+T> = None | Some(value: T)

  /** JavaScript's `true` (eligible), `false` (ineligible), `null` (needs
      human review) and `undefined` (needs more information). */
  datatype Determination = True | False | Null | Undefined

  /** The determination a JavaScript boolean stands for. */
  function FromBool(b: bool): (d: Determination)
    ensures d == True <==> b
    ensures d == False <==> !b
  {
    if b then True else False
  }

  /** `{ determination, reason }`; the reason is absent when the lookup
      table of reasons has no entry for the determination. */
  datatype CriterionResult = CriterionResult(determination: Determination, reason: Option<string>)

  /** `xs.join(sep)`. */
  function Join(xs: seq<string>, sep: string): string
  {
    if xs == [] then ""
    else if |xs| == 1 then xs[0]
    else xs[0] + sep + Join(xs[1..], sep)
  }

  /** Separator of the quoted lists embedded in reasons: `'", "'`. */
  const QuotedListSeparator: string := "\", \""
}
